/** The data side of picklist_gui.py's PicklistGUI: the cards loaded from a
    picklist CSV (each a record whose grabbed flag and price change in
    place), the search and location filters, the single-column sort with a
    direction, the remaining/grabbed views and the grouping by location,
    the grabbed toggling and its key set, the counts, the progress
    snapshot, and the Scryfall price and image caches. Widgets, threads and
    file dialogs are not part of the model: what the operator types or
    picks, the CSV rows, the saved JSON and the network are parameters. */
module Picklist {
  import opened Wrappers
  import opened Text
  import opened Ordering
  import opened Locations
  import opened Scryfall
  import Images

  // ---------------------------------------------------------------- sort keys

  /** A sort key as sort_cards builds one: a number, a text, or the
      -infinity / +infinity the price key gives a card without a price. */
  datatype Key = Low | Num(n: int) | Text(t: string) | High

  function Rank(k: Key): nat {
    match k
    case Low => 0
    case Num(_) => 1
    case Text(_) => 2
    case High => 3
  }

  /** Python's `<` on keys. A number and a text never meet in a sort that
      completes (SortFails below); ranking them apart only keeps the order
      total. */
  function KeyLess(a: Key, b: Key): bool {
    if Rank(a) != Rank(b) then Rank(a) < Rank(b)
    else if a.Num? && b.Num? then a.n < b.n
    else if a.Text? && b.Text? then StrLess(a.t, b.t)
    else false
  }

  function KeyLe(a: Key, b: Key): bool { !KeyLess(b, a) }

  lemma KeyLessStrictTotal()
    ensures StrictTotalOrder(KeyLess)
  {
    CharLessStrictTotal();
    forall a: Key ensures !KeyLess(a, a) {
      if a.Text? { LexIrreflexive(a.t, CharLess); }
    }
    forall a: Key, b: Key, c: Key | KeyLess(a, b) && KeyLess(b, c) ensures KeyLess(a, c) {
      if a.Text? && b.Text? && c.Text? { LexTransitive(a.t, b.t, c.t, CharLess); }
    }
    forall a: Key, b: Key | a != b ensures KeyLess(a, b) || KeyLess(b, a) {
      if a.Text? && b.Text? { LexTrichotomy(a.t, b.t, CharLess); }
    }
  }

  /** `<=` on keys is total, transitive and antisymmetric. */
  lemma KeyLeTotalOrder()
    ensures TotalPreorder(KeyLe)
    ensures forall a, b :: KeyLe(a, b) && KeyLe(b, a) ==> a == b
  {
    KeyLessStrictTotal();
    forall a, b, c | KeyLe(a, b) && KeyLe(b, c) ensures KeyLe(a, c) {
      assert a == b || KeyLess(a, b) || KeyLess(b, a);
    }
  }

  /** A key tagged with the position of its card in the list sorted. */
  type Tag = (Key, int)

  /** The comparison list.sort uses, with reverse=True flipping it. */
  function TagLe(reverse: bool): (Tag, Tag) -> bool {
    if reverse then (a: Tag, b: Tag) => KeyLe(b.0, a.0)
    else (a: Tag, b: Tag) => KeyLe(a.0, b.0)
  }

  lemma TagLeTotalPreorder(reverse: bool)
    ensures TotalPreorder(TagLe(reverse))
  {
    KeyLeTotalOrder();
    var le := TagLe(reverse);
    forall a: Tag, b: Tag ensures le(a, b) || le(b, a) {
      assert KeyLe(a.0, b.0) || KeyLe(b.0, a.0);
    }
    forall a: Tag, b: Tag, c: Tag | le(a, b) && le(b, c) ensures le(a, c) {
      if reverse {
        assert KeyLe(c.0, b.0) && KeyLe(b.0, a.0);
      } else {
        assert KeyLe(a.0, b.0) && KeyLe(b.0, c.0);
      }
    }
  }

  /** The keys decorated with their positions, as list.sort(key=...) does. */
  function Tags(keys: seq<Key>): seq<Tag> {
    seq(|keys|, i requires 0 <= i < |keys| => (keys[i], i))
  }

  /** The tags in sorted order. */
  function SortedTags(keys: seq<Key>, reverse: bool): seq<Tag> {
    SortBy(Tags(keys), TagLe(reverse))
  }

  /** Every sorted tag is the tag of one position. */
  lemma SortedTagsArePositions(keys: seq<Key>, reverse: bool)
    ensures var order := SortedTags(keys, reverse);
      && |order| == |keys|
      && forall k :: 0 <= k < |order| ==> 0 <= order[k].1 < |keys| && order[k].0 == keys[order[k].1]
  {
    var tags := Tags(keys);
    var order := SortedTags(keys, reverse);
    SortByPermutation(tags, TagLe(reverse));
    assert |order| == |multiset(order)| == |multiset(tags)| == |tags|;
    forall k | 0 <= k < |order| ensures 0 <= order[k].1 < |keys| && order[k].0 == keys[order[k].1] {
      assert order[k] in multiset(order);
      assert order[k] in multiset(tags);
      var i :| 0 <= i < |tags| && tags[i] == order[k];
    }
  }

  /** s rearranged the way list.sort rearranges it for these keys. */
  function SortedByKeys<T>(s: seq<T>, keys: seq<Key>, reverse: bool): seq<T>
    requires |keys| == |s|
  {
    SortedTagsArePositions(keys, reverse);
    var order := SortedTags(keys, reverse);
    seq(|order|, k requires 0 <= k < |order| => s[order[k].1])
  }

  // ---------------------------------------------------------------- stability

  predicate PositionsAscend(s: seq<Tag>) {
    forall i, j :: 0 <= i < j < |s| ==> s[i].1 < s[j].1
  }

  lemma {:induction false} PeersIn<T>(s: seq<T>, y: T, le: (T, T) -> bool)
    ensures forall x :: x in Peers(s, y, le) ==> x in s
  {
    if s != [] {
      PeersIn(s[1..], y, le);
    }
  }

  /** Keeping some of a list whose positions ascend keeps them ascending. */
  lemma {:induction false} PeersAscend(s: seq<Tag>, y: Tag, le: (Tag, Tag) -> bool)
    requires PositionsAscend(s)
    ensures PositionsAscend(Peers(s, y, le))
  {
    if s != [] {
      PeersAscend(s[1..], y, le);
      PeersIn(s[1..], y, le);
      var rest := Peers(s[1..], y, le);
      forall x | x in rest ensures s[0].1 < x.1 {
        var j :| 0 <= j < |s[1..]| && s[1..][j] == x;
        assert s[j + 1] == x;
      }
    }
  }

  /** Two elements tying with y keep their relative order among y's peers. */
  lemma {:induction false} PeersKeepOrder<T>(s: seq<T>, y: T, le: (T, T) -> bool, k: int, m: int)
    requires 0 <= k < m < |s|
    requires Equivalent(s[k], y, le) && Equivalent(s[m], y, le)
    ensures exists a, b :: 0 <= a < b < |Peers(s, y, le)| && Peers(s, y, le)[a] == s[k] && Peers(s, y, le)[b] == s[m]
  {
    var p := Peers(s, y, le);
    var rest := Peers(s[1..], y, le);
    if k == 0 {
      assert p == [s[0]] + rest;
      PeersMember(s[1..], y, le, m - 1);
      var b :| 0 <= b < |rest| && rest[b] == s[m];
      assert p[0] == s[k] && p[b + 1] == s[m];
    } else {
      PeersKeepOrder(s[1..], y, le, k - 1, m - 1);
      var a, b :| 0 <= a < b < |rest| && rest[a] == s[k] && rest[b] == s[m];
      var head := if Equivalent(s[0], y, le) then [s[0]] else [];
      assert p == head + rest;
      assert p[|head| + a] == s[k] && p[|head| + b] == s[m];
    }
  }

  lemma {:induction false} PeersMember<T>(s: seq<T>, y: T, le: (T, T) -> bool, m: int)
    requires 0 <= m < |s| && Equivalent(s[m], y, le)
    ensures exists b :: 0 <= b < |Peers(s, y, le)| && Peers(s, y, le)[b] == s[m]
  {
    var rest := Peers(s[1..], y, le);
    if m == 0 {
      assert Peers(s, y, le)[0] == s[0];
    } else {
      PeersMember(s[1..], y, le, m - 1);
      var b :| 0 <= b < |rest| && rest[b] == s[m];
      var head := if Equivalent(s[0], y, le) then [s[0]] else [];
      assert Peers(s, y, le) == head + rest;
      assert Peers(s, y, le)[|head| + b] == s[m];
    }
  }

  /** What list.sort(key=..., reverse=...) promises, stated on the sorted
      tags: the result is the input read through a rearrangement of its
      positions, the keys are in order (descending when reversed), and two
      entries whose keys tie keep their input order. */
  lemma SortedByKeysSpec<T>(s: seq<T>, keys: seq<Key>, reverse: bool)
    requires |keys| == |s|
    ensures var order := SortedTags(keys, reverse);
      var r := SortedByKeys(s, keys, reverse);
      && |r| == |s| && |order| == |s|
      && (forall k :: 0 <= k < |r| ==> 0 <= order[k].1 < |s| && r[k] == s[order[k].1] && order[k].0 == keys[order[k].1])
      && (forall k, m :: 0 <= k < m < |r| ==> order[k].1 != order[m].1)
      && (forall k, m :: 0 <= k < m < |r| ==>
            if reverse then KeyLe(order[m].0, order[k].0) else KeyLe(order[k].0, order[m].0))
      && (forall k, m :: 0 <= k < m < |r| && order[k].0 == order[m].0 ==> order[k].1 < order[m].1)
  {
    var tags := Tags(keys);
    var le := TagLe(reverse);
    var order := SortedTags(keys, reverse);
    SortedTagsArePositions(keys, reverse);
    TagLeTotalPreorder(reverse);
    SortByIsStable(tags, le);
    KeyLeTotalOrder();
    assert PositionsAscend(tags);
    forall k, m | 0 <= k < m < |order| ensures order[k].1 != order[m].1 {
      assert order[k] in multiset(tags) && order[m] in multiset(tags);
      DistinctCounts(order);
      DistinctCounts(tags);
      assert Distinct(tags);
      PermutationKeepsDistinct(tags, order);
    }
    forall k, m | 0 <= k < m < |order| ensures if reverse then KeyLe(order[m].0, order[k].0) else KeyLe(order[k].0, order[m].0) {
      assert le(order[k], order[m]);
    }
    forall k, m | 0 <= k < m < |order| && order[k].0 == order[m].0 ensures order[k].1 < order[m].1 {
      var y := order[k];
      assert Equivalent(order[m], y, le);
      PeersKeepOrder(order, y, le, k, m);
      var a, b :| 0 <= a < b < |Peers(order, y, le)| && Peers(order, y, le)[a] == order[k] && Peers(order, y, le)[b] == order[m];
      PeersAscend(tags, y, le);
      assert Peers(order, y, le) == Peers(tags, y, le);
    }
  }
  /** Every element of the input is somewhere in the output. */
  lemma SortedByKeysKeepsAll<T>(s: seq<T>, keys: seq<Key>, reverse: bool)
    requires |keys| == |s|
    ensures forall j :: 0 <= j < |s| ==> s[j] in SortedByKeys(s, keys, reverse)
  {
    var tags := Tags(keys);
    var order := SortedTags(keys, reverse);
    TagLeTotalPreorder(reverse);
    SortByIsStable(tags, TagLe(reverse));
    SortedByKeysSpec(s, keys, reverse);
    forall j | 0 <= j < |s| ensures s[j] in SortedByKeys(s, keys, reverse) {
      assert tags[j] in multiset(tags);
      var k :| 0 <= k < |order| && order[k] == tags[j];
      assert SortedByKeys(s, keys, reverse)[k] == s[j];
    }
  }

  // ---------------------------------------------------------------- cards

  /** A row of the picklist CSV: the columns it has, by header. */
  type Row = map<string, string>

  /** row.get(column, '') */
  function Column(row: Row, column: string): string {
    if column in row then row[column] else ""
  }

  /** int(row.get('Quantity', 1)): 1 without the column, None when int()
      raises. */
  function QuantityOf(row: Row): Option<int> {
    if "Quantity" in row then ParseInt(row["Quantity"]) else Some(1)
  }

  /** One card of the picklist. Its columns never change once loaded; the
      grabbed flag and the price are updated in place, and the same card
      object is shared by the full list and the filtered one. */
  class Card {
    const order: string
    const name: string
    const setName: string
    const setCode: string
    const number: string
    const quantity: int
    const condition: string
    const language: string
    const finish: string
    const rarity: string
    const location: string
    var grabbed: bool
    var price: Option<int>

    /** The card load_picklist builds from a row: not grabbed, no price. */
    constructor(row: Row, quantity: int, location: string)
      ensures order == Column(row, "Order") && name == Column(row, "Card Name")
      ensures setName == Column(row, "Set") && setCode == Column(row, "Set Code")
      ensures number == Column(row, "Collector Number") && this.quantity == quantity
      ensures condition == Column(row, "Condition") && language == Column(row, "Language")
      ensures finish == Column(row, "Finish") && rarity == Column(row, "Rarity")
      ensures this.location == location
      ensures !grabbed && price == None
    {
      order := Column(row, "Order");
      name := Column(row, "Card Name");
      setName := Column(row, "Set");
      setCode := Column(row, "Set Code");
      number := Column(row, "Collector Number");
      this.quantity := quantity;
      condition := Column(row, "Condition");
      language := Column(row, "Language");
      finish := Column(row, "Finish");
      rarity := Column(row, "Rarity");
      this.location := location;
      grabbed := false;
      price := None;
    }
  }

  /** The card was read from the row, its location looked up in the
      mapping as the GUI does. */
  predicate ReadFrom(c: Card, row: Row, locations: map<string, string>) {
    && QuantityOf(row) == Some(c.quantity)
    && c.order == Column(row, "Order") && c.name == Column(row, "Card Name")
    && c.setName == Column(row, "Set") && c.setCode == Column(row, "Set Code")
    && c.number == Column(row, "Collector Number")
    && c.condition == Column(row, "Condition") && c.language == Column(row, "Language")
    && c.finish == Column(row, "Finish") && c.rarity == Column(row, "Rarity")
    && c.location == GuiLocationForSet(c.setCode, locations)
  }

  /** The number of leading rows whose quantity parses: load_picklist stops
      at the first row where int() raises. */
  function GoodPrefix(rows: seq<Row>): (n: nat)
    ensures n <= |rows|
    ensures forall i :: 0 <= i < n ==> QuantityOf(rows[i]).Some?
    ensures n < |rows| ==> QuantityOf(rows[n]).None?
    decreases |rows|
  {
    if rows == [] || QuantityOf(rows[0]).None? then 0
    else
      var n := GoodPrefix(rows[1..]);
      assert forall i :: 1 <= i < n + 1 ==> rows[i] == rows[1..][i - 1];
      1 + n
  }

  // ---------------------------------------------------------------- the filters

  /** apply_filters' test for one card: the lower-cased search text occurs
      in the lower-cased name, set or set code (or is empty), and the
      location is the chosen one (or the choice is "All"). */
  predicate Matches(c: Card, searchText: string, locationFilter: string) {
    && (searchText == [] || Contains(Lower(c.name), searchText)
          || Contains(Lower(c.setName), searchText) || Contains(Lower(c.setCode), searchText))
    && (locationFilter == "All" || c.location == locationFilter)
  }

  function Matcher(searchText: string, locationFilter: string): Card -> bool {
    (c: Card) => Matches(c, searchText, locationFilter)
  }

  /** filtered_cards before sorting: the matching cards in list order. */
  function Filtered(cards: seq<Card>, search: string, locationFilter: string): seq<Card> {
    Filter(cards, Matcher(Lower(search), locationFilter))
  }

  /** A card is kept exactly when it matches, and nothing is added. */
  lemma FilteredMembers(cards: seq<Card>, search: string, locationFilter: string)
    ensures |Filtered(cards, search, locationFilter)| <= |cards|
    ensures forall c :: c in Filtered(cards, search, locationFilter) <==>
      c in cards && Matches(c, Lower(search), locationFilter)
  {
    var p := Matcher(Lower(search), locationFilter);
    FilterMembers(cards, p);
    forall c ensures c in Filter(cards, p) <==> c in cards && p(c) {
      if c in Filter(cards, p) {
        var i :| 0 <= i < |Filter(cards, p)| && Filter(cards, p)[i] == c;
      }
      if c in cards && p(c) {
        var i :| 0 <= i < |cards| && cards[i] == c;
      }
    }
  }

  // ---------------------------------------------------------------- the sort

  const NamedOptions := ["Card Name", "Location", "Set Code", "Rarity", "Condition"]

  /** The options sort_cards acts on; any other (the initial "order"
      among them) leaves the list as it is. */
  predicate Sortable(option: string) {
    option == "Order" || option in NamedOptions || option == "Price"
  }

  /** The text column a named option sorts by. */
  function FieldFor(c: Card, option: string): string {
    if option == "Card Name" then c.name
    else if option == "Location" then c.location
    else if option == "Set Code" then c.setCode
    else if option == "Rarity" then c.rarity
    else c.condition
  }

  /** order_key: int(order), or the order text when int() raises. */
  function OrderKey(order: string): Key {
    var n := ParseInt(order);
    if n.Some? then Num(n.value) else Text(order)
  }

  /** price_key: a missing price is -infinity ascending and +infinity
      descending, so it comes first either way. */
  function PriceKey(price: Option<int>, reverse: bool): Key {
    if price.None? then (if reverse then High else Low) else Num(price.value)
  }

  function CardKey(c: Card, option: string, reverse: bool): Key
    reads c
  {
    if option == "Order" then OrderKey(c.order)
    else if option == "Price" then PriceKey(c.price, reverse)
    else Text(Lower(FieldFor(c, option)))
  }

  function Keys(s: seq<Card>, option: string, reverse: bool): (keys: seq<Key>)
    reads s
    ensures |keys| == |s|
  {
    seq(|s|, i reads s requires 0 <= i < |s| => CardKey(s[i], option, reverse))
  }

  /** The orders are all numbers or all not: the lists whose "Order" keys
      are all ints or all strs. */
  predicate UniformOrders(s: seq<Card>) {
    OrdersParse(s, true) || OrdersParse(s, false)
  }

  /** The "Order" sort raises TypeError. Python raises it when an int and
      a str key meet; with two or more cards and both kinds of key, some
      int and some str would end next to each other, and a comparison sort
      compares every pair it leaves adjacent. One card or none is never
      compared, and the other options' keys are all of one type. */
  predicate SortFails(s: seq<Card>, option: string) {
    option == "Order" && |s| >= 2 && !UniformOrders(s)
  }

  /** Every card's order parses as an integer (numeric) or none does. */
  predicate OrdersParse(s: seq<Card>, numeric: bool)
    decreases |s|
  {
    s != [] ==> OrdersParse(s[..|s| - 1], numeric) && ParseInt(s[|s| - 1].order).Some? == numeric
  }

  lemma {:induction false} OrdersParseAt(s: seq<Card>, numeric: bool, i: int)
    requires OrdersParse(s, numeric) && 0 <= i < |s|
    ensures ParseInt(s[i].order).Some? == numeric
    decreases |s|
  {
    if i < |s| - 1 {
      OrdersParseAt(s[..|s| - 1], numeric, i);
    }
  }

  lemma {:induction false} OrdersParseIntro(s: seq<Card>, numeric: bool)
    requires forall i :: 0 <= i < |s| ==> ParseInt(s[i].order).Some? == numeric
    ensures OrdersParse(s, numeric)
    decreases |s|
  {
    if s != [] {
      var t := s[..|s| - 1];
      forall i | 0 <= i < |t| ensures ParseInt(t[i].order).Some? == numeric {
        assert t[i] == s[i];
      }
      OrdersParseIntro(t, numeric);
    }
  }

  /** The Order column of a file: every value parses as an integer or none does. */
  predicate UniformOrderColumn(rows: seq<Row>) {
    ColumnParses(rows, true) || ColumnParses(rows, false)
  }

  predicate ColumnParses(rows: seq<Row>, numeric: bool)
    decreases |rows|
  {
    rows != [] ==>
      ColumnParses(rows[..|rows| - 1], numeric) && ParseInt(Column(rows[|rows| - 1], "Order")).Some? == numeric
  }

  lemma {:induction false} ColumnParsesAt(rows: seq<Row>, numeric: bool, i: int)
    requires ColumnParses(rows, numeric) && 0 <= i < |rows|
    ensures ParseInt(Column(rows[i], "Order")).Some? == numeric
    decreases |rows|
  {
    if i < |rows| - 1 {
      ColumnParsesAt(rows[..|rows| - 1], numeric, i);
    }
  }

  lemma FilterKeepsUniform(s: seq<Card>, p: Card -> bool)
    requires UniformOrders(s)
    ensures UniformOrders(Filter(s, p))
  {
    FilterMembers(s, p);
    var f := Filter(s, p);
    var numeric := OrdersParse(s, true);
    forall i | 0 <= i < |f| ensures ParseInt(f[i].order).Some? == numeric {
      var j :| 0 <= j < |s| && s[j] == f[i];
      OrdersParseAt(s, numeric, j);
    }
    OrdersParseIntro(f, numeric);
  }

  /** When every order is a number, or none is, no search or location
      filter leaves a list the "Order" sort raises on. */
  lemma UniformNeverRaises(cards: seq<Card>, search: string, locationFilter: string, option: string)
    requires UniformOrders(cards)
    ensures !SortFails(Filtered(cards, search, locationFilter), option)
  {
    FilterKeepsUniform(cards, Matcher(Lower(search), locationFilter));
  }

  /** filtered_cards after sort_cards. */
  function SortedView(s: seq<Card>, option: string, direction: string): seq<Card>
    reads s
  {
    if s == [] || !Sortable(option) then s
    else SortedByKeys(s, Keys(s, option, direction == "desc"), direction == "desc")
  }

  /** Sorting keeps the same cards: as many, and each card of the
      input somewhere in the output and nothing else. */
  lemma SortedViewMembers(s: seq<Card>, option: string, direction: string)
    ensures |SortedView(s, option, direction)| == |s|
    ensures forall c :: c in SortedView(s, option, direction) <==> c in s
  {
    if s != [] && Sortable(option) {
      var rev := direction == "desc";
      var r := SortedView(s, option, direction);
      SortedByKeysSpec(s, Keys(s, option, rev), rev);
      SortedByKeysKeepsAll(s, Keys(s, option, rev), rev);
      forall c ensures c in r <==> c in s {
        if c in s {
          var j :| 0 <= j < |s| && s[j] == c;
        }
      }
    }
  }

  /** The facts of SortedByKeysSpec for one pair of output positions, read
      back as the cards' own keys. */
  lemma SortedViewPair(s: seq<Card>, option: string, direction: string, k: int, m: int)
    requires s != [] && Sortable(option)
    requires 0 <= k < m < |SortedView(s, option, direction)|
    ensures var r := SortedView(s, option, direction);
      var a := CardKey(r[k], option, direction == "desc");
      var b := CardKey(r[m], option, direction == "desc");
      if direction == "desc" then KeyLe(b, a) else KeyLe(a, b)
  {
    var rev := direction == "desc";
    SortedByKeysSpec(s, Keys(s, option, rev), rev);
  }

  /** A named option orders the cards by the lower-cased column, ascending
      or descending. */
  lemma NamedSortOrder(s: seq<Card>, option: string, direction: string, k: int, m: int)
    requires s != [] && option in NamedOptions
    requires 0 <= k < m < |SortedView(s, option, direction)|
    ensures var r := SortedView(s, option, direction);
      var a := Lower(FieldFor(r[k], option));
      var b := Lower(FieldFor(r[m], option));
      if direction == "desc" then StrLe(b, a) else StrLe(a, b)
  {
    SortedViewPair(s, option, direction, k, m);
  }

  /** Cards without a price come before every priced card, in both
      directions. */
  lemma MissingPricesFirst(s: seq<Card>, direction: string, k: int, m: int)
    requires s != []
    requires 0 <= k < m < |SortedView(s, "Price", direction)|
    requires SortedView(s, "Price", direction)[m].price.None?
    ensures SortedView(s, "Price", direction)[k].price.None?
  {
    SortedViewPair(s, "Price", direction, k, m);
  }

  /** With all orders numeric, the "Order" sort is by their integer value. */
  lemma OrderSortIsNumeric(s: seq<Card>, direction: string, k: int, m: int)
    requires s != [] && forall i :: 0 <= i < |s| ==> ParseInt(s[i].order).Some?
    requires 0 <= k < m < |SortedView(s, "Order", direction)|
    ensures var r := SortedView(s, "Order", direction);
      ParseInt(r[k].order).Some? && ParseInt(r[m].order).Some? &&
      if direction == "desc" then ParseInt(r[m].order).value <= ParseInt(r[k].order).value
      else ParseInt(r[k].order).value <= ParseInt(r[m].order).value
  {
    var rev := direction == "desc";
    SortedByKeysSpec(s, Keys(s, "Order", rev), rev);
    SortedViewPair(s, "Order", direction, k, m);
  }

  // ---------------------------------------------------------------- the views

  /** The cards of s that are grabbed. */
  function GrabbedIn(s: seq<Card>): set<Card>
    reads s
  {
    set c | c in s && c.grabbed
  }

  /** display_cards' view filter: "remaining" shows the cards not grabbed,
      "grabbed" the grabbed ones, anything else all of them. */
  predicate Visible(view: string, isGrabbed: bool) {
    if view == "remaining" then !isGrabbed
    else if view == "grabbed" then isGrabbed
    else true
  }

  function InView(view: string, grabbed: set<Card>): Card -> bool {
    (c: Card) => Visible(view, c in grabbed)
  }

  /** The cards of s the view shows, in order. */
  function View(s: seq<Card>, view: string): seq<Card>
    reads s
  {
    Filter(s, InView(view, GrabbedIn(s)))
  }

  /** A draw inside one that follows it adds nothing of its own. */
  /** Cards drawn between `before` and `before + part`, then `extra`,
      then all of `all`, which holds both: the result is `before + all`. */
  lemma Squeezed<T>(before: set<T>, mid: set<T>, part: set<T>, extra: set<T>, all: set<T>)
    requires before <= mid <= before + part && part <= all && extra <= all
    ensures mid + extra + all == before + all
  {
  }

  lemma Absorbed<T>(before: set<T>, first: set<T>, second: set<T>, all: set<T>)
    requires first <= all && second == all
    ensures before + first + second == before + all
  {
  }

  /** No view admits more than the empty one, which admits every card. */
  lemma AdmitsWithin(s: seq<Card>, view: string, grabbed: set<Card>)
    ensures Admits(s, view, grabbed) <= Admits(s, "", grabbed)
  {
  }

  /** The cards of s a view admits, as a set, given which are grabbed. */
  function Admits(s: seq<Card>, view: string, grabbed: set<Card>): set<Card> {
    set c | c in s && Visible(view, c in grabbed)
  }

  /** The number of grabbed cards: sum(1 for card in cards if card['grabbed']). */
  function GrabbedCount(s: seq<Card>): nat
    reads s
  {
    if s == [] then 0 else (if s[0].grabbed then 1 else 0) + GrabbedCount(s[1..])
  }

  lemma {:induction false} GrabbedCountIsGrabbedView(s: seq<Card>, g: set<Card>)
    requires forall i :: 0 <= i < |s| ==> (s[i] in g <==> s[i].grabbed)
    ensures GrabbedCount(s) == |Filter(s, InView("grabbed", g))|
  {
    if s != [] {
      GrabbedCountIsGrabbedView(s[1..], g);
    }
  }

  /** A view shows a card exactly when the card is in the list and the
      view admits its grabbed flag. */
  lemma ViewMember(s: seq<Card>, view: string, c: Card)
    ensures c in View(s, view) <==> c in s && Visible(view, c.grabbed)
  {
    var p := InView(view, GrabbedIn(s));
    FilterMembers(s, p);
    if c in View(s, view) {
      var i :| 0 <= i < |View(s, view)| && View(s, view)[i] == c;
    }
    if c in s && Visible(view, c.grabbed) {
      var i :| 0 <= i < |s| && s[i] == c;
      assert p(s[i]);
    }
  }

  /** The remaining and grabbed views hold every card once between them,
      and the grabbed count is the size of the grabbed view, so grabbed +
      remaining = total counts the same cards the views show. */
  lemma ViewsSplit(s: seq<Card>)
    ensures |View(s, "remaining")| + |View(s, "grabbed")| == |s|
    ensures GrabbedCount(s) == |View(s, "grabbed")|
    ensures |s| - GrabbedCount(s) == |View(s, "remaining")|
  {
    var g := GrabbedIn(s);
    var rem, grb := InView("remaining", g), InView("grabbed", g);
    FilterPartition(s, grb, rem);
    GrabbedCountIsGrabbedView(s, g);
  }

  // ---------------------------------------------------------------- grouping

  function AtLocation(location: string): Card -> bool {
    (c: Card) => c.location == location
  }

  function LocationsOf(s: seq<Card>): set<string> {
    set i | 0 <= i < |s| :: s[i].location
  }

  lemma LocationsOfSnoc(s: seq<Card>, c: Card)
    ensures LocationsOf(s + [c]) == LocationsOf(s) + {c.location}
  {
    var t := s + [c];
    forall l | l in LocationsOf(t) ensures l in LocationsOf(s) + {c.location} {
      var i :| 0 <= i < |t| && t[i].location == l;
      if i < |s| { assert t[i] == s[i]; }
    }
    forall l | l in LocationsOf(s) ensures l in LocationsOf(t) {
      var i :| 0 <= i < |s| && s[i].location == l;
      assert t[i] == s[i];
    }
    assert t[|s|] == c;
  }

  lemma FilterSnoc<T>(s: seq<T>, x: T, p: T -> bool)
    ensures Filter(s + [x], p) == Filter(s, p) + (if p(x) then [x] else [])
  {
    FilterConcat(s, [x], p);
    assert [x][1..] == [];
  }

  lemma FilterNone<T>(s: seq<T>, p: T -> bool)
    requires forall i :: 0 <= i < |s| ==> !p(s[i])
    ensures Filter(s, p) == []
  {
    FilterMembers(s, p);
    if Filter(s, p) != [] {
      var j :| 0 <= j < |s| && s[j] == Filter(s, p)[0];
    }
  }

  /** The first pass of the grouping: each location shown, mapped to its
      cards in the order they were shown. */
  method IndexByLocation(shown: seq<Card>) returns (byLocation: map<string, seq<Card>>)
    ensures byLocation.Keys == LocationsOf(shown)
    ensures forall l :: l in byLocation ==>
      byLocation[l] == Filter(shown, AtLocation(l)) && byLocation[l] != []
  {
    byLocation := map[];
    var i := 0;
    while i < |shown|
      invariant 0 <= i <= |shown|
      invariant Indexes(byLocation, shown[..i])
    {
      var c := shown[i];
      assert shown[..i + 1] == shown[..i] + [c];
      IndexesSnoc(byLocation, shown[..i], c);
      if c.location !in byLocation {
        byLocation := byLocation[c.location := []];
      }
      byLocation := byLocation[c.location := byLocation[c.location] + [c]];
      i := i + 1;
    }
    assert shown[..i] == shown;
  }

  /** m maps each location of s to its cards in s, in order. */
  predicate Indexes(m: map<string, seq<Card>>, s: seq<Card>) {
    m.Keys == LocationsOf(s) && IndexedCards(m, s)
  }

  predicate IndexedCards(m: map<string, seq<Card>>, s: seq<Card>) {
    forall l :: l in m ==> m[l] == Filter(s, AtLocation(l)) && m[l] != []
  }

  /** Appending a card to its location's list keeps the index exact. */
  lemma IndexesSnoc(m: map<string, seq<Card>>, s: seq<Card>, c: Card)
    requires Indexes(m, s)
    ensures Indexes(m[c.location := (if c.location in m then m[c.location] else []) + [c]], s + [c])
  {
    LocationsOfSnoc(s, c);
    IndexedCardsSnoc(m, s, c);
  }

  lemma IndexedCardsSnoc(m: map<string, seq<Card>>, s: seq<Card>, c: Card)
    requires Indexes(m, s)
    ensures IndexedCards(m[c.location := (if c.location in m then m[c.location] else []) + [c]], s + [c])
  {
    var m' := m[c.location := (if c.location in m then m[c.location] else []) + [c]];
    forall l | l in m'
      ensures m'[l] == Filter(s + [c], AtLocation(l)) && m'[l] != []
    {
      IndexEntrySnoc(m, s, c, l);
    }
  }

  /** One entry of the index after the append. */
  lemma IndexEntrySnoc(m: map<string, seq<Card>>, s: seq<Card>, c: Card, l: string)
    requires Indexes(m, s) && (l in m || l == c.location)
    ensures Filter(s + [c], AtLocation(l)) ==
      if l == c.location then (if l in m then m[l] else []) + [c] else m[l]
  {
    FilterSnoc(s, c, AtLocation(l));
    if l !in m {
      forall j | 0 <= j < |s| ensures !AtLocation(l)(s[j]) {
        assert s[j].location in LocationsOf(s);
      }
      FilterNone(s, AtLocation(l));
    }
  }

  /** The grouping display_cards makes for the "Location" sort: one group
      per location shown, groups in ascending location order, each holding
      its location's cards in the order they were shown. */
  method GroupByLocation(shown: seq<Card>) returns (groups: seq<(string, seq<Card>)>)
    ensures (set i | 0 <= i < |groups| :: groups[i].0) == LocationsOf(shown)
    ensures forall i, j :: 0 <= i < j < |groups| ==> StrLess(groups[i].0, groups[j].0)
    ensures forall i :: 0 <= i < |groups| ==>
      groups[i].1 == Filter(shown, AtLocation(groups[i].0)) && groups[i].1 != []
  {
    var byLocation := IndexByLocation(shown);
    StrLeTotalOrder();
    var locations := SortedElements(byLocation.Keys, StrLe);
    groups := seq(|locations|, k requires 0 <= k < |locations| => (locations[k], byLocation[locations[k]]));
    forall k, j | 0 <= k < j < |groups| ensures StrLess(groups[k].0, groups[j].0) {
      assert StrLe(locations[k], locations[j]) && locations[k] != locations[j];
    }
    assert (set k | 0 <= k < |groups| :: groups[k].0) == byLocation.Keys by {
      forall l | l in byLocation.Keys ensures l in (set k | 0 <= k < |groups| :: groups[k].0) {
        var k :| 0 <= k < |locations| && locations[k] == l;
        assert groups[k].0 == l;
      }
    }
  }

  // ---------------------------------------------------------------- counts

  /** The number of cards at a location. */
  function CountAt(s: seq<Card>, location: string): nat
    decreases |s|
  {
    if s == [] then 0
    else CountAt(s[..|s| - 1], location) + (if s[|s| - 1].location == location then 1 else 0)
  }

  /** The number of grabbed cards at a location. */
  function GrabbedAt(s: seq<Card>, location: string): nat
    reads s
    decreases |s|
  {
    if s == [] then 0
    else GrabbedAt(s[..|s| - 1], location) + (if s[|s| - 1].location == location && s[|s| - 1].grabbed then 1 else 0)
  }

  lemma {:induction false} GrabbedAtMost(s: seq<Card>, location: string)
    ensures GrabbedAt(s, location) <= CountAt(s, location)
    decreases |s|
  {
    if s != [] {
      GrabbedAtMost(s[..|s| - 1], location);
    }
  }

  /** One location's line of the summary. */
  datatype Tally = Tally(total: nat, grabbed: nat)

  function SumTotals(s: seq<Card>, locations: seq<string>): nat
    decreases |locations|
  {
    if locations == [] then 0 else CountAt(s, locations[0]) + SumTotals(s, locations[1..])
  }

  function Occurrences(locations: seq<string>, l: string): nat
    decreases |locations|
  {
    if locations == [] then 0 else (if locations[0] == l then 1 else 0) + Occurrences(locations[1..], l)
  }

  lemma {:induction false} OccurrencesOfDistinct(locations: seq<string>, l: string)
    requires Distinct(locations)
    ensures Occurrences(locations, l) == if l in locations then 1 else 0
    decreases |locations|
  {
    if locations != [] {
      assert Distinct(locations[1..]);
      OccurrencesOfDistinct(locations[1..], l);
      if locations[0] == l {
        assert l !in locations[1..];
      }
    }
  }

  lemma {:induction false} SumTotalsSnoc(s: seq<Card>, c: Card, locations: seq<string>)
    ensures SumTotals(s + [c], locations) == SumTotals(s, locations) + Occurrences(locations, c.location)
    decreases |locations|
  {
    if locations != [] {
      SumTotalsSnoc(s, c, locations[1..]);
      assert (s + [c])[..|s|] == s;
    }
  }

  /** Over any list of the locations without repeats, the per-location
      totals add up to the number of cards. */
  lemma {:induction false} TotalsSumToCards(s: seq<Card>, locations: seq<string>)
    requires Distinct(locations)
    requires forall i :: 0 <= i < |s| ==> s[i].location in locations
    ensures SumTotals(s, locations) == |s|
    decreases |s|
  {
    if s == [] {
      assert forall ls: seq<string> :: SumTotals([], ls) == 0 by {
        forall ls: seq<string> ensures SumTotals([], ls) == 0 {
          ZeroSum(ls);
        }
      }
    } else {
      var init := s[..|s| - 1];
      TotalsSumToCards(init, locations);
      assert s == init + [s[|s| - 1]];
      SumTotalsSnoc(init, s[|s| - 1], locations);
      OccurrencesOfDistinct(locations, s[|s| - 1].location);
    }
  }

  lemma {:induction false} ZeroSum(locations: seq<string>)
    ensures SumTotals([], locations) == 0
    decreases |locations|
  {
    if locations != [] {
      ZeroSum(locations[1..]);
    }
  }

  // ---------------------------------------------------------------- progress

  /** The key a card is saved and toggled under: order followed by name. */
  function ProgressKey(c: Card): string { c.order + c.name }

  function ProgressKeys(s: seq<Card>): (keys: seq<string>)
    ensures |keys| == |s|
  {
    seq(|s|, i requires 0 <= i < |s| => ProgressKey(s[i]))
  }

  function Flags(s: seq<Card>): (flags: seq<bool>)
    reads s
    ensures |flags| == |s|
  {
    seq(|s|, i reads s requires 0 <= i < |s| => s[i].grabbed)
  }

  function Prices(s: seq<Card>): (prices: seq<Option<int>>)
    reads s
    ensures |prices| == |s|
  {
    seq(|s|, i reads s requires 0 <= i < |s| => s[i].price)
  }

  /** card_states as save_progress writes it: a dict comprehension over the
      cards, so of two cards with one key the later one's flag is kept. */
  function StatesAsWritten(keys: seq<string>, flags: seq<bool>): map<string, bool>
    requires |keys| == |flags|
    decreases |keys|
  {
    if keys == [] then map[]
    else StatesAsWritten(keys[..|keys| - 1], flags[..|flags| - 1])[keys[|keys| - 1] := flags[|flags| - 1]]
  }

  /** The flags load_progress leaves: a card whose key has an entry takes
      it, any other card keeps its flag, and entries without a card are
      ignored. */
  function RestoredAsWritten(keys: seq<string>, flags: seq<bool>, states: map<string, bool>): (r: seq<bool>)
    requires |keys| == |flags|
    ensures |r| == |flags|
  {
    seq(|flags|, i requires 0 <= i < |flags| => if keys[i] in states then states[keys[i]] else flags[i])
  }

  lemma {:induction false} StatesAsWrittenAt(keys: seq<string>, flags: seq<bool>)
    requires |keys| == |flags| && Distinct(keys)
    ensures forall i :: 0 <= i < |keys| ==>
      keys[i] in StatesAsWritten(keys, flags) && StatesAsWritten(keys, flags)[keys[i]] == flags[i]
    decreases |keys|
  {
    if keys != [] {
      var n := |keys| - 1;
      assert Distinct(keys[..n]);
      StatesAsWrittenAt(keys[..n], flags[..n]);
      forall i | 0 <= i < n ensures keys[i] != keys[n] && keys[..n][i] == keys[i] && flags[..n][i] == flags[i] {
      }
    }
  }

  /** With distinct keys, saving and then loading the same cards gives
      back every flag. */
  lemma RoundTripAsWrittenWithDistinctKeys(keys: seq<string>, flags: seq<bool>)
    requires |keys| == |flags| && Distinct(keys)
    ensures RestoredAsWritten(keys, flags, StatesAsWritten(keys, flags)) == flags
  {
    StatesAsWrittenAt(keys, flags);
  }

  /** Two cards with one key (the same card twice in one order, in two
      conditions say): the first is grabbed, the second not, and after
      saving and loading neither is grabbed. */
  lemma DuplicateKeyLosesProgress()
    ensures var keys, flags := ["1001Bolt", "1001Bolt"], [true, false];
      RestoredAsWritten(keys, flags, StatesAsWritten(keys, flags)) == [false, false]
  {
    var keys, flags := ["1001Bolt", "1001Bolt"], [true, false];
    assert keys[..1] == ["1001Bolt"] && flags[..1] == [true];
    assert keys[..1][..0] == [] && flags[..1][..0] == [];
    assert StatesAsWritten(keys, flags) == map["1001Bolt" := false];
  }

  /** The corrected snapshot: each card's flag under its position in the
      list together with its key. */
  function States(keys: seq<string>, flags: seq<bool>): map<(int, string), bool>
    requires |keys| == |flags|
  {
    map i | 0 <= i < |keys| :: (i, keys[i]) := flags[i]
  }

  /** The corrected restore: a card takes the entry saved for its position
      and key; cards without one keep their flag, and entries for other
      positions or keys are ignored. */
  function Restored(keys: seq<string>, flags: seq<bool>, states: map<(int, string), bool>): (r: seq<bool>)
    requires |keys| == |flags|
    ensures |r| == |flags|
  {
    seq(|flags|, i requires 0 <= i < |flags| => if (i, keys[i]) in states then states[(i, keys[i])] else flags[i])
  }

  /** The corrected snapshot records every card under its own entry. */
  lemma StatesRecordEveryCard(keys: seq<string>, flags: seq<bool>)
    requires |keys| == |flags|
    ensures forall i :: 0 <= i < |keys| ==> (i, keys[i]) in States(keys, flags) && States(keys, flags)[(i, keys[i])] == flags[i]
    ensures forall e :: e in States(keys, flags) ==> 0 <= e.0 < |keys| && e.1 == keys[e.0]
  {
    forall i | 0 <= i < |keys| ensures (i, keys[i]) in States(keys, flags) {
    }
  }

  /** Loading a snapshot that records every card gives back every saved
      flag, whatever the flags were before the load, duplicate keys or
      not. */
  lemma RoundTrip(keys: seq<string>, flags: seq<bool>, before: seq<bool>, states: map<(int, string), bool>)
    requires |keys| == |flags| == |before|
    requires forall i :: 0 <= i < |keys| ==> (i, keys[i]) in states && states[(i, keys[i])] == flags[i]
    ensures Restored(keys, before, states) == flags
  {
  }

  /** A card load_progress finds an entry for but that was never drawn:
      it has no grabbed_var, and setting it raises KeyError. */
  predicate Undrawn(cards: seq<Card>, drawn: set<Card>, states: map<(int, string), bool>, i: int)
    requires 0 <= i < |cards|
  {
    (i, ProgressKey(cards[i])) in states && cards[i] !in drawn
  }

  /** The first card from `from` on that load_progress stops at, or the
      number of cards when it stops at none. */
  function FirstUndrawn(cards: seq<Card>, drawn: set<Card>, states: map<(int, string), bool>, from: nat): (k: nat)
    requires from <= |cards|
    ensures from <= k <= |cards|
    ensures forall j :: from <= j < k ==> !Undrawn(cards, drawn, states, j)
    ensures k < |cards| ==> Undrawn(cards, drawn, states, k)
    decreases |cards| - from
  {
    if from == |cards| || Undrawn(cards, drawn, states, from) then from
    else FirstUndrawn(cards, drawn, states, from + 1)
  }

  // ---------------------------------------------------------------- the view buttons

  /** current_filter after set_filter(kind) as written: "remaining" and
      "grabbed" set it, "all" leaves it as it was. */
  function NextFilterAsWritten(current: string, kind: string): string {
    if kind == "remaining" || kind == "grabbed" then kind else current
  }

  /** After "Remaining", the "All" button as written still hides every
      grabbed card. */
  lemma AllAfterRemainingHidesGrabbed(s: seq<Card>)
    ensures var view := NextFilterAsWritten("remaining", "all");
      forall c :: c in View(s, view) ==> !c.grabbed
  {
    assert "all" != "remaining" && "all" != "grabbed" by { assert "all"[0] != "remaining"[0] && "all"[0] != "grabbed"[0]; }
    assert NextFilterAsWritten("remaining", "all") == "remaining";
    forall c | c in View(s, "remaining") ensures !c.grabbed {
      ViewMember(s, "remaining", c);
    }
  }

  /** current_filter after set_filter(kind), with "all" clearing the view
      filter as clear_filters does. */
  function NextFilter(current: string, kind: string): string {
    if kind == "all" then "" else NextFilterAsWritten(current, kind)
  }

  /** After "All" every card of the list is shown, whatever came before. */
  lemma AllShowsEverything(s: seq<Card>, current: string)
    ensures View(s, NextFilter(current, "all")) == s
  {
    FilterAll(s, InView("", GrabbedIn(s)));
  }

  // ---------------------------------------------------------------- the caches

  /** The key of price_cache and image_cache: set code, collector number
      and name joined by '_', the set code as the CSV spells it. */
  function CacheKey(setCode: string, number: string, name: string): string {
    setCode + "_" + number + "_" + name
  }

  function CardCacheKey(c: Card): string { CacheKey(c.setCode, c.number, c.name) }

  predicate UnderscoreFree(s: string) {
    forall i :: 0 <= i < |s| ==> s[i] != '_'
  }

  lemma CacheKeySplits(setCode: string, number: string, name: string)
    requires UnderscoreFree(setCode) && UnderscoreFree(number)
    ensures Images.SplitImageKey(CacheKey(setCode, number, name)) == Images.Parts(setCode, number, name)
  {
    Images.SplitJoinedKey(setCode, number, name);
  }

  /** With set codes and collector numbers free of '_', two cards share a
      cache key only if they agree on set, number and name, so a cached
      lookup answers for every card that hits it. */
  lemma CacheKeyDetermines(s1: string, n1: string, m1: string, s2: string, n2: string, m2: string)
    requires UnderscoreFree(s1) && UnderscoreFree(n1) && UnderscoreFree(s2) && UnderscoreFree(n2)
    requires CacheKey(s1, n1, m1) == CacheKey(s2, n2, m2)
    ensures s1 == s2 && n1 == n2 && m1 == m2
  {
    CacheKeySplits(s1, n1, m1);
    CacheKeySplits(s2, n2, m2);
  }

  /** Without that, different cards collide: set "A_B" number "1" and set
      "A" number "B_1" share a key. */
  lemma CacheKeysCollide()
    ensures CacheKey("A_B", "1", "X") == CacheKey("A", "B_1", "X")
  {
  }

  // ---------------------------------------------------------------- the location dropdown

  /** The widget kinds the window is built from, and a widget with its
      children in packing order. */
  datatype WidgetKind = Frame | LabelFrame | Label | Entry | Combobox | Button | Canvas | Scrollbar | Notebook
  datatype Widget = Widget(kind: WidgetKind, children: seq<Widget>)

  /** The first combobox among some widgets. */
  function ComboIn(ws: seq<Widget>): (r: Option<Widget>)
    ensures r.Some? <==> exists j :: 0 <= j < |ws| && ws[j].kind == Combobox
    ensures r.Some? ==> r.value in ws && r.value.kind == Combobox
  {
    if ws == [] then None
    else if ws[0].kind == Combobox then Some(ws[0])
    else ComboIn(ws[1..])
  }

  /** update_location_dropdown's search over the children of a widget: each
      LabelFrame child is searched for a combobox among its own children,
      and a later find replaces an earlier one (the break leaves only the
      inner loop). */
  function FoundCombo(children: seq<Widget>): (r: Option<Widget>)
    ensures r.Some? <==>
      exists i :: 0 <= i < |children| && children[i].kind == LabelFrame && ComboIn(children[i].children).Some?
    ensures r.Some? ==> r.value.kind == Combobox
  {
    if children == [] then None
    else
      var last := children[|children| - 1];
      var found := FoundCombo(children[..|children| - 1]);
      assert forall i :: 0 <= i < |children| - 1 ==> children[..|children| - 1][i] == children[i];
      if last.kind == LabelFrame && ComboIn(last.children).Some? then ComboIn(last.children) else found
  }

  /** The filter section as create_filter_section packs it: the search
      label and entry, the location label and its combobox, the view
      buttons, and the sort row with its own combobox inside a frame. */
  const FilterSection :=
    Widget(LabelFrame, [
      Widget(Label, []), Widget(Entry, []), Widget(Label, []), Widget(Combobox, []),
      Widget(Frame, [Widget(Button, []), Widget(Button, []), Widget(Button, []), Widget(Button, [])]),
      Widget(Frame, [Widget(Label, []), Widget(Combobox, []), Widget(Button, [])])])

  /** The children of the cards tab as create_cards_display builds it: one
      frame holding the canvas, whose scrollable frame holds whatever
      display_cards drew (the location sections among them), and the
      scrollbar. */
  function CardsTab(drawnSections: seq<Widget>): seq<Widget> {
    [Widget(Frame, [Widget(Canvas, [Widget(Frame, drawnSections)]), Widget(Scrollbar, [])])]
  }

  /** As written, update_location_dropdown searches the cards tab, where no
      LabelFrame is a direct child, so it never finds the location
      combobox and never installs the locations, whatever the card area
      shows. */
  lemma DropdownNeverUpdated(drawnSections: seq<Widget>)
    ensures FoundCombo(CardsTab(drawnSections)) == None
  {
  }

  /** The same search over the filter section, the parent the location
      combobox was created in, finds that combobox (and not the sort
      combobox, which sits one frame deeper). */
  lemma DropdownInFilterSection()
    ensures FoundCombo([FilterSection]) == Some(FilterSection.children[3])
    ensures FilterSection.children[3].kind == Combobox
  {
  }

  // ---------------------------------------------------------------- the window

  /** What the card area shows. */
  datatype Screen =
    | NoCards                                         // show_empty_state
    | NoResults                                       // show_no_results_state
    | Flat(shown: seq<Card>)                          // create_flat_card_display
    | ByLocation(groups: seq<(string, seq<Card>)>)    // one create_location_section per group

  /** The counts of the status line (update_stats). */
  datatype Stats = Stats(total: nat, grabbed: nat, remaining: int, showing: Option<nat>)

  /** The content of the summary tab (update_summary). */
  datatype Summary = Summary(
    total: nat, grabbed: nat, remaining: int,
    locations: seq<string>, byLocation: map<string, Tally>, remainingCards: seq<Card>)

  /** What save_progress writes. */
  datatype Progress = Progress(grabbedKeys: set<string>, states: map<(int, string), bool>)

  /** The keys of the grabbed cards. */
  function GrabbedKeys(keys: seq<string>, flags: seq<bool>): set<string>
    requires |keys| == |flags|
  {
    set i | 0 <= i < |keys| && flags[i] :: keys[i]
  }

  /** Grabbing or releasing one card changes the set by that card's key,
      provided no two cards share a key. */
  lemma GrabbedKeysUpdate(keys: seq<string>, flags: seq<bool>, p: int, g: bool)
    requires |keys| == |flags| && Distinct(keys) && 0 <= p < |keys|
    ensures GrabbedKeys(keys, flags[p := g]) ==
      if g then GrabbedKeys(keys, flags) + {keys[p]} else GrabbedKeys(keys, flags) - {keys[p]}
  {
    var after := flags[p := g];
    var lhs := GrabbedKeys(keys, after);
    var rhs := if g then GrabbedKeys(keys, flags) + {keys[p]} else GrabbedKeys(keys, flags) - {keys[p]};
    forall k | k in lhs ensures k in rhs {
      var i :| 0 <= i < |keys| && after[i] && keys[i] == k;
      if i != p { assert flags[i]; }
    }
    forall k | k in rhs ensures k in lhs {
      if k == keys[p] {
        assert after[p];
      } else {
        var i :| 0 <= i < |keys| && flags[i] && keys[i] == k;
        assert i != p && after[i];
      }
    }
  }

  /** The picklist window: the loaded cards, the filtered and sorted list
      the card area draws from, the grabbed-card keys, the set-to-location
      mapping, the price and image caches, and the filter and sort
      settings, and the cards drawn since they were loaded. The Scryfall
      queries and image downloads made are logged. */
  class PicklistGui {
    var cards: seq<Card>
    var filtered: seq<Card>
    var grabbedKeys: set<string>
    const locations: map<string, string>
    var priceCache: map<string, Option<int>>
    ghost var priceSources: map<string, Card>
    var imageCache: map<string, string>
    ghost var imageSources: map<string, Card>
    var requests: seq<Query>
    var downloads: seq<string>
    var search: string
    var locationFilter: string
    var sortOption: string
    var direction: string
    var currentFilter: string
    // the cards create_modern_card_widget has given a widget and a grabbed_var
    var drawn: set<Card>

    /** Each card is loaded once, and the filtered list only holds loaded
        cards. */
    predicate Valid()
      reads this`cards, this`filtered
    {
      && Distinct(cards)
      && forall c :: c in filtered ==> c in cards
    }

    /** The window as it opens: no cards, empty caches, search cleared,
        location "All", sort "order" ascending, no view filter. */
    constructor(locations: map<string, string>)
      ensures Valid()
      ensures this.locations == locations
      ensures cards == [] && filtered == [] && grabbedKeys == {}
      ensures priceCache == map[] && imageCache == map[] && requests == [] && downloads == []
      ensures search == "" && locationFilter == "All" && sortOption == "order" && direction == "asc" && currentFilter == ""
      ensures drawn == {}
    {
      this.locations := locations;
      cards := [];
      filtered := [];
      grabbedKeys := {};
      priceCache := map[];
      priceSources := map[];
      imageCache := map[];
      imageSources := map[];
      requests := [];
      downloads := [];
      search := "";
      locationFilter := "All";
      sortOption := "order";
      direction := "asc";
      currentFilter := "";
      drawn := {};
    }

    /** The list the card area starts from: the filtered cards, or all of
        them when the filter left none. */
    function Shown(): seq<Card>
      reads this`cards, this`filtered
    {
      if filtered != [] then filtered else cards
    }

    /** The cards display_cards draws. */
    function Displayed(): seq<Card>
      reads this`cards, this`filtered, this`currentFilter, Shown()
    {
      View(Shown(), currentFilter)
    }

    /** The cards display_cards draws, as a set. */
    function DisplayedSet(): set<Card>
      reads this`cards, this`filtered, this`currentFilter, Shown()
    {
      set c | c in Displayed()
    }

    /** display_cards gives every card it draws a widget, and with it the
        grabbed_var load_progress sets; without cards it draws none. The
        cards drawn before stay drawn. */
    predicate Drew(before: set<Card>)
      reads this`drawn, this`cards, this`filtered, this`currentFilter, Shown()
    {
      drawn == before + if cards == [] then {} else DisplayedSet()
    }

    /** The widgets display_cards creates, one per card it draws. */
    method DrawCards()
      modifies this`drawn
      ensures Drew(old(drawn))
    {
      if cards != [] {
        drawn := drawn + DisplayedSet();
      }
    }

    /** A card is drawn exactly when it is in the list the card area starts
        from and the view filter admits it. */
    lemma DisplayedMember(c: Card)
      ensures c in Displayed() <==> c in Shown() && Visible(currentFilter, c.grabbed)
    {
      ViewMember(Shown(), currentFilter, c);
    }

    /** The "Order" sort of the cards the current search and location
        filter keep raises TypeError (SortFails), so apply_filters stops
        before it draws. */
    predicate SortRaises()
      reads this`cards, this`search, this`locationFilter, this`sortOption
    {
      SortFails(Filtered(cards, search, locationFilter), sortOption)
    }

    /** The filtered list is the current filter and sort applied to the
        cards; when the sort raised, it holds the same cards in an order
        the model does not fix; with no cards, apply_filters returns early
        and leaves it as it was. */
    predicate Refreshed(before: seq<Card>)
      reads this`cards, this`filtered, this`search, this`locationFilter, this`sortOption, this`direction,
            Filtered(cards, search, locationFilter)
    {
      if cards == [] then filtered == before
      else if SortRaises() then multiset(filtered) == multiset(Filtered(cards, search, locationFilter))
      else filtered == SortedView(Filtered(cards, search, locationFilter), sortOption, direction)
    }

    /** What a refresh draws: the card area as display_cards draws it, or
        nothing when the sort raised before display_cards was reached. */
    predicate Redrew(before: set<Card>)
      reads this`drawn, this`cards, this`filtered, this`currentFilter, this`search, this`locationFilter,
            this`sortOption, Shown()
    {
      if SortRaises() then drawn == before else Drew(before)
    }

    /** sort_cards, in place on filtered_cards. The "Order" sort of a list
        SortFails on raises (`sorted` false) and leaves the same cards. */
    method SortCards() returns (sorted: bool)
      modifies this`filtered
      ensures sorted <==> !SortFails(old(filtered), sortOption)
      ensures sorted ==> filtered == SortedView(old(filtered), sortOption, direction)
      ensures !sorted ==> multiset(filtered) == multiset(old(filtered))
    {
      if filtered == [] || !Sortable(sortOption) {
        return true;
      }
      if SortFails(filtered, sortOption) {
        return false;
      }
      var reverse := direction == "desc";
      filtered := SortedByKeys(filtered, Keys(filtered, sortOption, reverse), reverse);
      return true;
    }

    /** apply_filters: rebuilds filtered_cards from the cards in list order,
        sorts it and draws the card area; without cards it does nothing.
        When the sort raises (`sorted` false) the exception leaves
        apply_filters before the card area is drawn. */
    method ApplyFilters() returns (sorted: bool)
      requires Valid()
      modifies this`filtered, this`drawn
      ensures Valid()
      ensures sorted <==> !SortRaises()
      ensures Refreshed(old(filtered))
      ensures Redrew(old(drawn))
    {
      if cards == [] {
        return true;
      }
      sorted := FilterAndSort();
      if sorted {
        // drawing changes no card, so the sorted view stays as it was
        ghost var view := SortedView(Filtered(cards, search, locationFilter), sortOption, direction);
        DrawCards();
        assert SortedView(Filtered(cards, search, locationFilter), sortOption, direction) == view;
      }
    }

    /** The filtering and sorting of apply_filters, for a non-empty list. */
    method FilterAndSort() returns (sorted: bool)
      requires Valid() && cards != []
      modifies this`filtered
      ensures Valid()
      ensures sorted <==> !SortRaises()
      ensures Refreshed(old(filtered))
    {
      var searchText := Lower(search);
      ghost var p := Matcher(searchText, locationFilter);
      var kept: seq<Card> := [];
      for i := 0 to |cards|
        invariant kept == Filter(cards[..i], p)
      {
        var card := cards[i];
        assert cards[..i + 1] == cards[..i] + [card];
        FilterSnoc(cards[..i], card, p);
        if searchText != [] {
          if !Contains(Lower(card.name), searchText) && !Contains(Lower(card.setName), searchText)
             && !Contains(Lower(card.setCode), searchText) {
            continue;
          }
        }
        if locationFilter != "All" && card.location != locationFilter {
          continue;
        }
        kept := kept + [card];
      }
      assert cards[..|cards|] == cards;
      FilteredMembers(cards, search, locationFilter);
      filtered := kept;
      sorted := SortCards();
      SortedViewMembers(kept, sortOption, direction);
      forall c | c in filtered ensures c in kept {
        assert c in multiset(filtered);
      }
    }

    /** Typing in the search box (its trace calls apply_filters; Tk reports
        an exception the refresh raises, and the write stands). */
    method SetSearch(text: string)
      requires Valid()
      modifies this`search, this`filtered, this`drawn
      ensures search == text
      ensures Valid() && Refreshed(old(filtered)) && Redrew(old(drawn))
    {
      search := text;
      var _ := ApplyFilters();
    }

    /** Choosing a location in the dropdown. As written the dropdown only
        ever holds "All" (see DropdownNeverUpdated); the method takes any
        location, as the corrected dropdown would offer. */
    method SetLocationFilter(location: string)
      requires Valid()
      modifies this`locationFilter, this`filtered, this`drawn
      ensures locationFilter == location
      ensures Valid() && Refreshed(old(filtered)) && Redrew(old(drawn))
    {
      locationFilter := location;
      var _ := ApplyFilters();
    }

    /** Choosing a sort option. */
    method SetSortOption(option: string)
      requires Valid()
      modifies this`sortOption, this`filtered, this`drawn
      ensures sortOption == option
      ensures Valid() && Refreshed(old(filtered)) && Redrew(old(drawn))
    {
      sortOption := option;
      var _ := ApplyFilters();
    }

    /** toggle_sort_direction: "asc" becomes "desc", anything else "asc". */
    method ToggleSortDirection()
      requires Valid()
      modifies this`direction, this`filtered, this`drawn
      ensures direction == if old(direction) == "asc" then "desc" else "asc"
      ensures Valid() && Refreshed(old(filtered)) && Redrew(old(drawn))
    {
      direction := if direction == "asc" then "desc" else "asc";
      var _ := ApplyFilters();
    }

    /** clear_filters: search, location, sort, direction and view filter
        back to their defaults (the sort to "Order", not the initial
        "order"). The writes to search_var and location_var refresh under
        the old sort and view (ClearSearchAndLocation), the rest as
        ResetSortAndView. Unless the sort raises, every card ends up drawn;
        if it does, only the first two refreshes can have drawn, and only
        cards the old view admits. */
    method ClearFilters()
      requires Valid()
      modifies this`search, this`locationFilter, this`sortOption, this`direction, this`currentFilter, this`filtered, this`drawn
      ensures search == "" && locationFilter == "All" && sortOption == "Order" && direction == "asc" && currentFilter == ""
      ensures Valid() && Refreshed(old(filtered))
      ensures !SortRaises() ==> Drew(old(drawn))
      ensures SortRaises() ==> old(drawn) <= drawn <= old(drawn) + Admits(cards, old(currentFilter), old(GrabbedIn(cards)))
      ensures Displayed() == Shown()
    {
      ghost var grabbed := GrabbedIn(cards);
      ClearSearchAndLocation();
      ResetSortAndView(grabbed, old(drawn));
    }

    /** The rest of clear_filters once the search and the location are
        cleared, with `before` the cards drawn before clear_filters: the
        write to sort_var refreshes under "Order" and the old view;
        sort_direction has no trace, so after the direction and the view
        filter are reset the explicit refresh is the last. Unless the sort
        raises, every card is drawn; the earlier refreshes of clear_filters
        only drew cards the old view admits. */
    method ResetSortAndView(ghost grabbed: set<Card>, ghost before: set<Card>)
      requires Valid() && search == "" && locationFilter == "All"
      requires forall c :: c in cards ==> (c in grabbed <==> c.grabbed)
      requires before <= drawn <= before + Admits(cards, currentFilter, grabbed)
      modifies this`sortOption, this`direction, this`currentFilter, this`filtered, this`drawn
      ensures sortOption == "Order" && direction == "asc" && currentFilter == ""
      ensures Valid() && Refreshed(old(filtered))
      ensures !SortRaises() ==> Drew(before)
      ensures SortRaises() ==> drawn == old(drawn)
      ensures Displayed() == Shown()
    {
      ghost var view := currentFilter;
      ghost var between := filtered;
      SetSortOption("Order");
      DisplayedSeen(between, grabbed);
      ghost var second := if cards == [] || SortRaises() then {} else DisplayedSet();
      ResetViewAndRefresh(grabbed);
      if cards != [] && !SortRaises() {
        AdmitsWithin(cards, view, grabbed);
        Squeezed(before, old(drawn), Admits(cards, view, grabbed), second, Admits(cards, "", grabbed));
      }
    }

    /** The last lines of clear_filters: the direction and the view filter
        back to their defaults, then the explicit refresh, which draws
        every card unless the sort raises. */
    method ResetViewAndRefresh(ghost grabbed: set<Card>)
      requires Valid() && search == "" && locationFilter == "All"
      requires forall c :: c in cards ==> (c in grabbed <==> c.grabbed)
      modifies this`direction, this`currentFilter, this`filtered, this`drawn
      ensures direction == "asc" && currentFilter == ""
      ensures Valid() && Refreshed(old(filtered))
      ensures !SortRaises() ==> Drew(old(drawn))
      ensures !SortRaises() && cards != [] ==> DisplayedSet() == Admits(cards, "", grabbed)
      ensures SortRaises() ==> drawn == old(drawn)
      ensures Displayed() == Shown()
    {
      direction := "asc";
      currentFilter := "";
      ghost var between := filtered;
      var _ := ApplyFilters();
      DisplayedSeen(between, grabbed);
      FilterAll(Shown(), InView("", GrabbedIn(Shown())));
    }

    /** What the card area draws: cards the view admits, and every one of
        them once the search and the location filter are cleared and the
        sort did not raise. */
    lemma DisplayedSeen(before: seq<Card>, grabbed: set<Card>)
      requires Valid()
      requires forall c :: c in cards ==> (c in grabbed <==> c.grabbed)
      ensures DisplayedSet() <= Admits(cards, currentFilter, grabbed)
      ensures cards != [] && search == "" && locationFilter == "All" && !SortRaises() && Refreshed(before) ==>
        DisplayedSet() == Admits(cards, currentFilter, grabbed)
    {
      forall c | c in Displayed() ensures c in Admits(cards, currentFilter, grabbed) {
        DisplayedMember(c);
      }
      if cards != [] && search == "" && locationFilter == "All" && !SortRaises() && Refreshed(before) {
        FilteredMembers(cards, "", "All");
        SortedViewMembers(Filtered(cards, "", "All"), sortOption, direction);
        forall c | c in Admits(cards, currentFilter, grabbed) ensures c in Displayed() {
          assert Matches(c, Lower(""), "All");
          DisplayedMember(c);
        }
      }
    }

    /** The first two lines of each branch of set_filter. Writing
        search_var and location_var fires their traces, so apply_filters
        and display_cards run after each write, under the view filter
        still in force; unless the sort raises, the second draws every card
        that view admits. */
    method ClearSearchAndLocation()
      requires Valid()
      modifies this`search, this`locationFilter, this`filtered, this`drawn
      ensures search == "" && locationFilter == "All"
      ensures Valid() && Refreshed(old(filtered))
      ensures !SortRaises() ==>
        drawn == old(drawn) + if cards == [] then {} else Admits(cards, currentFilter, old(GrabbedIn(cards)))
      ensures SortRaises() ==> old(drawn) <= drawn <= old(drawn) + Admits(cards, currentFilter, old(GrabbedIn(cards)))
    {
      ghost var grabbed := GrabbedIn(cards);
      SetSearch("");
      DisplayedSeen(filtered, grabbed);
      ghost var first := if cards == [] || SortRaises() then {} else DisplayedSet();
      ghost var between := filtered;
      SetLocationFilter("All");
      DisplayedSeen(between, grabbed);
      if !SortRaises() {
        ghost var all := if cards == [] then {} else Admits(cards, currentFilter, grabbed);
        Absorbed(old(drawn), first, all, all);
      }
    }

    /** One of the three view buttons: the search and the location are
        cleared, each write refreshing the card area under the old view
        filter; then the view filter changes and a last refresh draws the
        new view. When the sort raises, the last two refreshes draw
        nothing and the first only cards of the old view. */
    method PressViewButton(kind: string)
      requires Valid()
      requires kind == "all" || kind == "remaining" || kind == "grabbed"
      modifies this`search, this`locationFilter, this`currentFilter, this`filtered, this`drawn
      ensures search == "" && locationFilter == "All"
      ensures currentFilter == NextFilter(old(currentFilter), kind)
      ensures Valid() && Refreshed(old(filtered))
      ensures !SortRaises() ==>
        drawn == old(drawn) + if cards == [] then {}
                              else Admits(cards, old(currentFilter), old(GrabbedIn(cards)))
                                   + Admits(cards, currentFilter, old(GrabbedIn(cards)))
      ensures SortRaises() ==>
        old(drawn) <= drawn <= old(drawn) + Admits(cards, old(currentFilter), old(GrabbedIn(cards)))
    {
      ghost var grabbed := GrabbedIn(cards);
      ClearSearchAndLocation();
      SwitchView(kind, grabbed);
    }

    /** The last two lines of set_filter once the search and the location
        are cleared: the view filter changes and the refresh draws every
        card the new view admits, unless the sort raises. */
    method SwitchView(kind: string, ghost grabbed: set<Card>)
      requires Valid() && search == "" && locationFilter == "All"
      requires forall c :: c in cards ==> (c in grabbed <==> c.grabbed)
      modifies this`currentFilter, this`filtered, this`drawn
      ensures currentFilter == NextFilter(old(currentFilter), kind)
      ensures Valid() && Refreshed(old(filtered))
      ensures !SortRaises() ==> drawn == old(drawn) + if cards == [] then {} else Admits(cards, currentFilter, grabbed)
      ensures SortRaises() ==> drawn == old(drawn)
    {
      currentFilter := NextFilter(currentFilter, kind);
      ghost var between := filtered;
      var _ := ApplyFilters();
      DisplayedSeen(between, grabbed);
    }

    /** set_filter with the "All" button corrected: "Remaining" and
        "Grabbed" set the view filter and "All" clears it, so that "All"
        shows every card again. Any other kind only refreshes. */
    method SetFilter(kind: string)
      requires Valid()
      modifies this`search, this`locationFilter, this`currentFilter, this`filtered, this`drawn
      ensures kind == "all" || kind == "remaining" || kind == "grabbed" ==> search == "" && locationFilter == "All"
      ensures !(kind == "all" || kind == "remaining" || kind == "grabbed") ==>
        search == old(search) && locationFilter == old(locationFilter)
      ensures currentFilter == NextFilter(old(currentFilter), kind)
      ensures Valid() && Refreshed(old(filtered))
      // the two traced writes draw the old view over every card, the
      // last refresh the new one
      ensures (kind == "all" || kind == "remaining" || kind == "grabbed") && !SortRaises() ==>
        drawn == old(drawn) + if cards == [] then {}
                              else Admits(cards, old(currentFilter), old(GrabbedIn(cards)))
                                   + Admits(cards, currentFilter, old(GrabbedIn(cards)))
      ensures (kind == "all" || kind == "remaining" || kind == "grabbed") && SortRaises() ==>
        old(drawn) <= drawn <= old(drawn) + Admits(cards, old(currentFilter), old(GrabbedIn(cards)))
      ensures !(kind == "all" || kind == "remaining" || kind == "grabbed") ==> Redrew(old(drawn))
      ensures kind == "all" ==> Displayed() == Shown()
    {
      if kind == "all" || kind == "remaining" || kind == "grabbed" {
        PressViewButton(kind);
        if kind == "all" {
          FilterAll(Shown(), InView("", GrabbedIn(Shown())));
        }
      } else {
        currentFilter := NextFilter(currentFilter, kind);
        var _ := ApplyFilters();
      }
    }

    /** load_picklist over the rows of the chosen file: every row becomes a
        new card, not grabbed and without a price, its location looked up
        by set code. At the first row whose Quantity int() rejects, loading
        stops with the cards read so far and an empty filtered list;
        otherwise the filters are applied. Either exception is caught and
        reported, and the summary is not updated (`loaded` false): the
        cards read stay loaded. */
    method LoadPicklist(rows: seq<Row>) returns (loaded: bool)
      modifies this`cards, this`filtered, this`grabbedKeys, this`drawn
      ensures Valid()
      ensures grabbedKeys == {}
      ensures loaded <==> GoodPrefix(rows) == |rows| && !SortRaises()
      ensures forall i :: 0 <= i < |cards| ==> fresh(cards[i])
      ensures FromRows(cards, rows, locations)
      ensures Unpicked(cards)
      ensures GoodPrefix(rows) < |rows| ==> filtered == [] && drawn == {}
      ensures GoodPrefix(rows) == |rows| ==> Refreshed([]) && Redrew({})
      // a file whose Order column is all numbers or all not loads unless
      // a Quantity is rejected
      ensures UniformOrderColumn(rows[..GoodPrefix(rows)]) ==> !SortRaises()
    {
      loaded := ResetCards(rows);
      if UniformOrderColumn(rows[..GoodPrefix(rows)]) {
        UniformNeverRaises(cards, search, locationFilter, sortOption);
      }
      if loaded {
        loaded := ApplyFilters();
      }
    }

    /** The part of load_picklist before apply_filters: the lists are
        emptied and refilled from the rows; the new cards have no widget
        yet. */
    method ResetCards(rows: seq<Row>) returns (loaded: bool)
      modifies this`cards, this`filtered, this`grabbedKeys, this`drawn
      ensures Valid()
      ensures grabbedKeys == {} && filtered == [] && drawn == {}
      ensures loaded <==> GoodPrefix(rows) == |rows|
      ensures forall i :: 0 <= i < |cards| ==> fresh(cards[i])
      ensures FromRows(cards, rows, locations)
      ensures Unpicked(cards)
      ensures UniformOrderColumn(rows[..GoodPrefix(rows)]) ==> UniformOrders(cards)
    {
      var read;
      read, loaded := ReadCards(rows, locations);
      if UniformOrderColumn(rows[..GoodPrefix(rows)]) {
        ReadKeepsUniform(read, rows, locations);
      }
      cards, grabbedKeys, filtered, drawn := read, {}, [], {};
    }

    /** The grabbed-card keys are those of the grabbed cards. */
    predicate KeysInSync()
      reads this`grabbedKeys, this`cards, cards
    {
      grabbedKeys == GrabbedKeys(ProgressKeys(cards), Flags(cards))
    }

    /** toggle_grabbed: sets the card's flag and adds or discards its key.
        When no two cards share a key, the keys stay in step with the
        flags. */
    method ToggleGrabbed(card: Card, grabbed: bool)
      modifies card`grabbed, this`grabbedKeys
      ensures card.grabbed == grabbed
      ensures grabbedKeys == if grabbed then old(grabbedKeys) + {ProgressKey(card)} else old(grabbedKeys) - {ProgressKey(card)}
      ensures card in cards && Distinct(ProgressKeys(cards)) && old(KeysInSync()) ==> KeysInSync()
    {
      card.grabbed := grabbed;
      if grabbed {
        grabbedKeys := grabbedKeys + {ProgressKey(card)};
      } else {
        grabbedKeys := grabbedKeys - {ProgressKey(card)};
      }
      if card in cards && Distinct(ProgressKeys(cards)) && old(KeysInSync()) {
        var p :| 0 <= p < |cards| && cards[p] == card;
        var keys := ProgressKeys(cards);
        forall i | 0 <= i < |cards| ensures Flags(cards)[i] == old(Flags(cards))[p := grabbed][i] {
          if i != p {
            assert keys[i] != keys[p];
          }
        }
        assert Flags(cards) == old(Flags(cards))[p := grabbed];
        GrabbedKeysUpdate(keys, old(Flags(cards)), p, grabbed);
      }
    }

    /** save_progress with the corrected card_states: nothing without
        cards; otherwise the grabbed keys, and for every card an entry
        under its position and key holding its flag, and no other entry. */
    method SaveProgress() returns (progress: Option<Progress>)
      ensures progress.None? <==> cards == []
      ensures progress.Some? ==> progress.value.grabbedKeys == grabbedKeys
      ensures progress.Some? ==> forall i :: 0 <= i < |cards| ==>
        (i, ProgressKey(cards[i])) in progress.value.states && progress.value.states[(i, ProgressKey(cards[i]))] == cards[i].grabbed
      ensures progress.Some? ==> forall e :: e in progress.value.states ==>
        0 <= e.0 < |cards| && e.1 == ProgressKey(cards[e.0])
    {
      if cards == [] {
        return None;
      }
      var keys, flags := ProgressKeys(cards), Flags(cards);
      StatesRecordEveryCard(keys, flags);
      return Some(Progress(grabbedKeys, States(keys, flags)));
    }

    /** load_progress with the corrected card_states. Cards are restored in
        list order: a card with an entry under its position and key takes
        that flag (through toggle_grabbed's bookkeeping), every other card
        keeps its own. The first card with an entry that was never drawn
        (`stop`) takes its flag but raises KeyError at its grabbed_var: the
        restore ends there, its key and the later cards unchanged, and the
        card area is not redrawn. Otherwise the card area is redrawn. */
    method LoadProgress(states: map<(int, string), bool>) returns (completed: bool, stop: nat)
      requires Valid()
      modifies cards, this`grabbedKeys, this`drawn
      ensures stop == FirstUndrawn(cards, old(drawn), states, 0) && (completed <==> stop == |cards|)
      ensures completed ==> Flags(cards) == Restored(ProgressKeys(cards), old(Flags(cards)), states)
      ensures forall i :: 0 <= i < stop ==> cards[i].grabbed == Restored(ProgressKeys(cards), old(Flags(cards)), states)[i]
      ensures stop < |cards| ==> cards[stop].grabbed == states[(stop, ProgressKey(cards[stop]))]
      ensures forall i :: stop < i < |cards| ==> cards[i].grabbed == old(cards[i].grabbed)
      ensures forall i :: 0 <= i < |cards| ==> cards[i].price == old(cards[i].price)
      ensures forall k :: k !in ProgressKeys(cards) ==> (k in grabbedKeys <==> k in old(grabbedKeys))
      ensures completed && Distinct(ProgressKeys(cards)) && old(KeysInSync()) ==> KeysInSync()
      // on the abort, the keys follow every flag but the one just set
      ensures !completed && Distinct(ProgressKeys(cards)) && old(KeysInSync()) ==>
        grabbedKeys == GrabbedKeys(ProgressKeys(cards), Flags(cards)[stop := old(cards[stop].grabbed)])
      ensures completed ==> Drew(old(drawn))
      ensures !completed ==> drawn == old(drawn)
    {
      ghost var after := Restored(ProgressKeys(cards), Flags(cards), states);
      completed, stop := RestoreCards(states);
      if completed {
        assert Flags(cards) == after;
        DrawCards();
      } else {
        // the flag is set before grabbed_var is looked up
        SetFlag(cards[stop], stop, states[(stop, ProgressKey(cards[stop]))]);
      }
    }

    /** The restore loop of load_progress, up to the card it stops at if
        there is one. */
    method RestoreCards(states: map<(int, string), bool>) returns (completed: bool, stop: nat)
      requires Valid()
      modifies cards, this`grabbedKeys
      ensures stop == FirstUndrawn(cards, drawn, states, 0) && (completed <==> stop == |cards|)
      ensures forall i :: 0 <= i < stop ==> cards[i].grabbed == Restored(ProgressKeys(cards), old(Flags(cards)), states)[i]
      ensures forall i :: stop <= i < |cards| ==> cards[i].grabbed == old(cards[i].grabbed)
      ensures forall i :: 0 <= i < |cards| ==> cards[i].price == old(cards[i].price)
      ensures forall k :: k !in ProgressKeys(cards) ==> (k in grabbedKeys <==> k in old(grabbedKeys))
      ensures Distinct(ProgressKeys(cards)) && old(KeysInSync()) ==> KeysInSync()
    {
      ghost var keys, before := ProgressKeys(cards), Flags(cards);
      ghost var after := Restored(keys, before, states);
      ghost var prices := Prices(cards);
      ghost var first := FirstUndrawn(cards, drawn, states, 0);
      var i := 0;
      completed := true;
      while i < |cards|
        invariant i <= first && completed
        invariant RestoredUpTo(i, before, after, prices)
        invariant forall k :: k !in keys ==> (k in grabbedKeys <==> k in old(grabbedKeys))
        invariant Distinct(keys) && old(KeysInSync()) ==> KeysInSync()
      {
        assert keys[i] == ProgressKey(cards[i]) && keys[i] in keys;
        var drawnCard := RestoreCard(cards[i], i, states, before, after, prices);
        if !drawnCard {
          completed := false;
          break;
        }
        i := i + 1;
      }
      stop := i;
    }

    /** The cards before position i hold their restored flag, the others
        their flag from before, and every price is as it was. */
    ghost predicate RestoredUpTo(i: nat, before: seq<bool>, after: seq<bool>, prices: seq<Option<int>>)
      reads this`cards, cards
    {
      && i <= |cards| == |before| == |after| == |prices|
      && (forall j :: 0 <= j < |cards| ==> cards[j].grabbed == if j < i then after[j] else before[j])
      && (forall j :: 0 <= j < |cards| ==> cards[j].price == prices[j])
    }

    /** One pass of the restore loop: a card with an entry under its position
        and key takes that flag through toggle_grabbed, unless it was never
        drawn (`restored` false), when nothing is changed yet. */
    method RestoreCard(card: Card, i: nat, states: map<(int, string), bool>,
                       ghost before: seq<bool>, ghost after: seq<bool>, ghost prices: seq<Option<int>>)
      returns (restored: bool)
      requires Valid() && i < |cards| && cards[i] == card
      requires RestoredUpTo(i, before, after, prices)
      requires after == Restored(ProgressKeys(cards), before, states)
      modifies card`grabbed, this`grabbedKeys
      ensures restored <==> !Undrawn(cards, drawn, states, i)
      ensures restored ==> RestoredUpTo(i + 1, before, after, prices)
      ensures !restored ==> RestoredUpTo(i, before, after, prices)
      ensures forall k :: k != ProgressKey(card) ==> (k in grabbedKeys <==> k in old(grabbedKeys))
      ensures Distinct(ProgressKeys(cards)) && old(KeysInSync()) ==> KeysInSync()
    {
      var entry := (i, ProgressKey(card));
      if entry in states {
        if card !in drawn {
          return false;
        }
        ToggleGrabbed(card, states[entry]);
      }
      return true;
    }

    /** card['grabbed'] = value on the card at position i, alone. */
    method SetFlag(card: Card, i: nat, value: bool)
      requires Valid() && i < |cards| && cards[i] == card
      modifies card`grabbed
      ensures card.grabbed == value
      ensures Flags(cards)[i := old(card.grabbed)] == old(Flags(cards))
    {
      card.grabbed := value;
      assert Flags(cards) == old(Flags(cards))[i := value];
    }

    /** Every cached price is the lookup of a card with that key. */
    ghost predicate PriceCacheSound(service: Query -> Option<CardData>, parse: string -> Option<int>)
      reads this
    {
      forall k :: k in priceCache ==>
        && k in priceSources && CardCacheKey(priceSources[k]) == k
        && priceCache[k] == PriceLookup(priceSources[k].setCode, priceSources[k].number, priceSources[k].name, service, parse).0
    }

    /** fetch_card_price: a cached key answers without a request; otherwise
        the lookups run and their result, None included, is cached. */
    method FetchCardPrice(card: Card, service: Query -> Option<CardData>, parse: string -> Option<int>)
      returns (price: Option<int>)
      requires PriceCacheSound(service, parse)
      modifies this`priceCache, this`priceSources, this`requests
      ensures PriceCacheSound(service, parse)
      ensures CardCacheKey(card) in old(priceCache) ==>
        price == old(priceCache)[CardCacheKey(card)] && priceCache == old(priceCache) && requests == old(requests)
      ensures CardCacheKey(card) !in old(priceCache) ==>
        var (found, asked) := PriceLookup(card.setCode, card.number, card.name, service, parse);
        price == found && requests == old(requests) + asked && priceCache == old(priceCache)[CardCacheKey(card) := found]
      // whatever is returned is the lookup of a card with the same key
      ensures var source := priceSources[CardCacheKey(card)];
        CardCacheKey(source) == CardCacheKey(card) && price == PriceLookup(source.setCode, source.number, source.name, service, parse).0
    {
      var key := CardCacheKey(card);
      if key in priceCache {
        return priceCache[key];
      }
      var asked;
      price, asked := PriceLookup(card.setCode, card.number, card.name, service, parse).0,
                      PriceLookup(card.setCode, card.number, card.name, service, parse).1;
      requests := requests + asked;
      priceCache := priceCache[key := price];
      priceSources := priceSources[key := card];
    }

    /** The price thread of a drawn card: the fetched price is stored on
        the card. */
    method LoadPrice(card: Card, service: Query -> Option<CardData>, parse: string -> Option<int>)
      requires PriceCacheSound(service, parse)
      modifies card`price, this`priceCache, this`priceSources, this`requests
      ensures PriceCacheSound(service, parse)
      ensures CardCacheKey(card) in old(priceCache) ==> card.price == old(priceCache)[CardCacheKey(card)]
      ensures CardCacheKey(card) !in old(priceCache) ==>
        card.price == PriceLookup(card.setCode, card.number, card.name, service, parse).0
    {
      var price := FetchCardPrice(card, service, parse);
      card.price := price;
    }

    /** Every cached image is the download of the URL the lookups find for
        a card with that key. */
    ghost predicate ImageCacheSound(service: Query -> Option<CardData>, fetch: string -> Option<string>)
      reads this
    {
      forall k :: k in imageCache ==>
        && k in imageSources && CardCacheKey(imageSources[k]) == k
        && var url := ImageUrlLookup(imageSources[k].setCode, imageSources[k].number, imageSources[k].name, service).0;
           UrlFound(url) && fetch(url.value) == Some(imageCache[k])
    }

    /** load_card_image: a cached key answers without a request; otherwise
        the print, name and search lookups run in turn, a URL found is
        downloaded (`fetch`, None for a failed status), and only a
        successful download is cached. */
    method LoadCardImage(card: Card, service: Query -> Option<CardData>, fetch: string -> Option<string>)
      returns (image: Option<string>)
      requires ImageCacheSound(service, fetch)
      modifies this`imageCache, this`imageSources, this`requests, this`downloads
      ensures ImageCacheSound(service, fetch)
      ensures CardCacheKey(card) in old(imageCache) ==>
        image == Some(old(imageCache)[CardCacheKey(card)])
        && imageCache == old(imageCache) && requests == old(requests) && downloads == old(downloads)
      ensures CardCacheKey(card) !in old(imageCache) ==>
        var (url, asked) := ImageUrlLookup(card.setCode, card.number, card.name, service);
        && requests == old(requests) + asked
        && downloads == old(downloads) + (if UrlFound(url) then [url.value] else [])
        && image == (if UrlFound(url) then fetch(url.value) else None)
        && imageCache == (if image.Some? then old(imageCache)[CardCacheKey(card) := image.value] else old(imageCache))
    {
      var key := CardCacheKey(card);
      if key in imageCache {
        return Some(imageCache[key]);
      }
      var url, asked := ImageUrlLookup(card.setCode, card.number, card.name, service).0,
                        ImageUrlLookup(card.setCode, card.number, card.name, service).1;
      requests := requests + asked;
      if !UrlFound(url) {
        return None;
      }
      downloads := downloads + [url.value];
      image := fetch(url.value);
      if image.Some? {
        imageCache := imageCache[key := image.value];
        imageSources := imageSources[key := card];
      }
    }

    /** display_cards: the empty state without cards, the no-results state
        when the view filter leaves nothing, location sections in location
        order for the "Location" sort, a flat list otherwise. */
    method Display() returns (screen: Screen)
      ensures screen.NoCards? <==> cards == []
      ensures screen.NoResults? <==> cards != [] && Displayed() == []
      ensures screen.Flat? <==> cards != [] && Displayed() != [] && sortOption != "Location"
      ensures screen.Flat? ==> screen.shown == Displayed()
      ensures screen.ByLocation? ==>
        && (set i | 0 <= i < |screen.groups| :: screen.groups[i].0) == LocationsOf(Displayed())
        && (forall i, j :: 0 <= i < j < |screen.groups| ==> StrLess(screen.groups[i].0, screen.groups[j].0))
        && (forall i :: 0 <= i < |screen.groups| ==>
              screen.groups[i].1 == Filter(Displayed(), AtLocation(screen.groups[i].0)) && screen.groups[i].1 != [])
    {
      if cards == [] {
        return NoCards;
      }
      var shown := Displayed();
      if shown == [] {
        return NoResults;
      }
      if sortOption == "Location" {
        var groups := GroupByLocation(shown);
        return ByLocation(groups);
      }
      return Flat(shown);
    }

    /** The values update_location_dropdown computes and evidently means to
        install in the location combobox: "All", then every location of the
        filtered cards once, in ascending order. (As written the search for
        the combobox never finds it: see DropdownNeverUpdated.) */
    method LocationChoices() returns (choices: seq<string>)
      ensures |choices| >= 1 && choices[0] == "All"
      ensures forall l :: l in choices[1..] <==> l in LocationsOf(filtered)
      ensures forall i, j :: 1 <= i < j < |choices| ==> StrLess(choices[i], choices[j])
    {
      StrLeTotalOrder();
      var sorted := SortedElements(LocationsOf(filtered), StrLe);
      choices := ["All"] + sorted;
      assert choices[1..] == sorted;
      forall i, j | 1 <= i < j < |choices| ensures StrLess(choices[i], choices[j]) {
        assert StrLe(sorted[i - 1], sorted[j - 1]) && sorted[i - 1] != sorted[j - 1];
      }
    }

    /** update_stats: nothing without cards; otherwise the total, the
        grabbed and remaining counts (the sizes of the two views), and the
        number of filtered cards when there are any. */
    function StatusLine(): (r: Option<Stats>)
      reads this, cards
      ensures r.None? <==> cards == []
      ensures r.Some? ==> r.value.total == |cards|
      ensures r.Some? ==> r.value.grabbed == |View(cards, "grabbed")| && r.value.remaining == |View(cards, "remaining")|
      ensures r.Some? ==> r.value.grabbed + r.value.remaining == r.value.total
      ensures r.Some? ==> (r.value.showing.Some? <==> filtered != [])
      ensures r.Some? && r.value.showing.Some? ==> r.value.showing.value == |filtered|
    {
      if cards == [] then None
      else
        ViewsSplit(cards);
        var grabbed := GrabbedCount(cards);
        Some(Stats(|cards|, grabbed, |cards| - grabbed, if filtered != [] then Some(|filtered|) else None))
    }

    /** update_summary: nothing without cards; otherwise the totals, one
        tally per location (listed in location order, adding up to the
        total), and the cards not yet grabbed in list order. */
    method Summarize() returns (summary: Option<Summary>)
      ensures summary.None? <==> cards == []
      ensures summary.Some? ==>
        var s := summary.value;
        && s.total == |cards| && s.grabbed == |View(cards, "grabbed")| && s.remaining == |View(cards, "remaining")|
        && s.byLocation.Keys == LocationsOf(cards)
        && (forall l :: l in s.byLocation ==>
              s.byLocation[l] == Tally(CountAt(cards, l), GrabbedAt(cards, l))
              && s.byLocation[l].grabbed <= s.byLocation[l].total)
        && (forall l :: l in s.locations <==> l in s.byLocation)
        && (forall i, j :: 0 <= i < j < |s.locations| ==> StrLess(s.locations[i], s.locations[j]))
        && SumTotals(cards, s.locations) == s.total
        && s.remainingCards == View(cards, "remaining")
        && (forall c :: c in s.remainingCards <==> c in cards && !c.grabbed)
    {
      if cards == [] {
        return None;
      }
      var grabbed, byLocation := TallyByLocation(cards);
      ViewsSplit(cards);
      forall l | l in byLocation ensures byLocation[l].grabbed <= byLocation[l].total {
        GrabbedAtMost(cards, l);
      }
      StrLeTotalOrder();
      var sorted := SortedElements(byLocation.Keys, StrLe);
      forall i, j | 0 <= i < j < |sorted| ensures StrLess(sorted[i], sorted[j]) {
        assert StrLe(sorted[i], sorted[j]) && sorted[i] != sorted[j];
      }
      forall i | 0 <= i < |cards| ensures cards[i].location in sorted {
        assert cards[i].location in LocationsOf(cards);
      }
      TotalsSumToCards(cards, sorted);
      var rest := View(cards, "remaining");
      forall c ensures c in rest <==> c in cards && !c.grabbed {
        ViewMember(cards, "remaining", c);
      }
      return Some(Summary(|cards|, grabbed, |cards| - grabbed, sorted, byLocation, rest));
    }
  }

  /** Cards read from rows whose Order column is uniform up to the first
      rejected Quantity have uniform orders. */
  lemma ReadKeepsUniform(cards: seq<Card>, rows: seq<Row>, locations: map<string, string>)
    requires FromRows(cards, rows, locations) && UniformOrderColumn(rows[..GoodPrefix(rows)])
    ensures UniformOrders(cards)
  {
    var read := rows[..GoodPrefix(rows)];
    var numeric := ColumnParses(read, true);
    forall j | 0 <= j < |cards| ensures ParseInt(cards[j].order).Some? == numeric {
      ReadAllAt(cards, rows, locations, j);
      ColumnParsesAt(read, numeric, j);
      assert read[j] == rows[j];
    }
    OrdersParseIntro(cards, numeric);
  }

  /** The cards are those of the rows up to the first whose quantity does
      not parse, each read from its row. */
  predicate FromRows(cards: seq<Card>, rows: seq<Row>, locations: map<string, string>) {
    |cards| == GoodPrefix(rows) && ReadAll(cards, rows, locations)
  }

  /** Each card was read from the row at its own position. */
  predicate ReadAll(cards: seq<Card>, rows: seq<Row>, locations: map<string, string>)
    decreases |cards|
  {
    && |cards| <= |rows|
    && (cards != [] ==>
          && ReadAll(cards[..|cards| - 1], rows, locations)
          && ReadFrom(cards[|cards| - 1], rows[|cards| - 1], locations))
  }

  lemma ReadAllSnoc(cards: seq<Card>, c: Card, rows: seq<Row>, locations: map<string, string>)
    requires ReadAll(cards, rows, locations) && |cards| < |rows|
    requires ReadFrom(c, rows[|cards|], locations)
    ensures ReadAll(cards + [c], rows, locations)
  {
    assert (cards + [c])[..|cards|] == cards;
  }

  lemma {:induction false} ReadAllAt(cards: seq<Card>, rows: seq<Row>, locations: map<string, string>, j: int)
    requires ReadAll(cards, rows, locations) && 0 <= j < |cards|
    ensures ReadFrom(cards[j], rows[j], locations)
    decreases |cards|
  {
    if j < |cards| - 1 {
      ReadAllAt(cards[..|cards| - 1], rows, locations, j);
    }
  }

  /** No card is grabbed or priced yet. */
  predicate Unpicked(cards: seq<Card>)
    reads cards
  {
    forall j :: 0 <= j < |cards| ==> !cards[j].grabbed && cards[j].price == None
  }

  /** Where the reading loop stands against the rows that parse. */
  lemma GoodPrefixAt(rows: seq<Row>, i: int)
    requires 0 <= i <= GoodPrefix(rows) && i < |rows|
    ensures QuantityOf(rows[i]).None? ==> GoodPrefix(rows) == i
    ensures QuantityOf(rows[i]).Some? ==> i < GoodPrefix(rows)
  {
  }

  /** The card dictionary load_picklist builds for one row. */
  method NewCard(row: Row, quantity: int, locations: map<string, string>) returns (card: Card)
    requires QuantityOf(row) == Some(quantity)
    ensures fresh(card)
    ensures ReadFrom(card, row, locations)
    ensures !card.grabbed && card.price == None
  {
    card := new Card(row, quantity, GuiLocationForSet(Column(row, "Set Code"), locations));
  }

  /** The reading loop of load_picklist: one new card per row, until a row
      whose Quantity int() rejects. */
  method ReadCards(rows: seq<Row>, locations: map<string, string>) returns (cards: seq<Card>, complete: bool)
    ensures complete <==> GoodPrefix(rows) == |rows|
    ensures Distinct(cards)
    ensures forall j :: 0 <= j < |cards| ==> fresh(cards[j])
    ensures FromRows(cards, rows, locations)
    ensures Unpicked(cards)
  {
    cards := [];
    var i := 0;
    while i < |rows| && QuantityOf(rows[i]).Some?
      invariant 0 <= i <= GoodPrefix(rows)
      invariant |cards| == i
      invariant Distinct(cards)
      invariant forall j :: 0 <= j < i ==> fresh(cards[j])
      invariant ReadAll(cards, rows, locations)
      invariant Unpicked(cards)
    {
      GoodPrefixAt(rows, i);
      var card := NewCard(rows[i], QuantityOf(rows[i]).value, locations);
      ReadAllSnoc(cards, card, rows, locations);
      DistinctSnoc(cards, card);
      cards := cards + [card];
      i := i + 1;
    }
    if i < |rows| {
      GoodPrefixAt(rows, i);
    }
    complete := i == |rows|;
  }

  /** The counting loop of update_summary: the grabbed cards, and per
      location the cards and the grabbed cards there. */
  method TallyByLocation(cards: seq<Card>) returns (grabbed: nat, byLocation: map<string, Tally>)
    ensures grabbed == GrabbedCount(cards)
    ensures byLocation.Keys == LocationsOf(cards)
    ensures forall l :: l in byLocation ==> byLocation[l] == Tally(CountAt(cards, l), GrabbedAt(cards, l))
  {
    grabbed := 0;
    byLocation := map[];
    for i := 0 to |cards|
      invariant grabbed + GrabbedCount(cards[i..]) == GrabbedCount(cards)
      invariant byLocation.Keys == LocationsOf(cards[..i])
      invariant forall l :: l in byLocation ==> byLocation[l] == Tally(CountAt(cards[..i], l), GrabbedAt(cards[..i], l))
    {
      var card := cards[i];
      assert cards[i..][1..] == cards[i + 1..];
      assert cards[..i + 1] == cards[..i] + [card];
      if card.location !in byLocation {
        TallySeed(cards[..i], card.location, byLocation);
        byLocation := byLocation[card.location := Tally(0, 0)];
      }
      TallyStep(cards[..i], card, byLocation);
      var t := byLocation[card.location];
      byLocation := byLocation[card.location := Tally(t.total + 1, t.grabbed + if card.grabbed then 1 else 0)];
      if card.grabbed {
        grabbed := grabbed + 1;
      }
    }
    assert cards[..|cards|] == cards;
  }

  /** A location seen for the first time starts from an empty tally,
      which is what the cards seen so far count there. */
  lemma TallySeed(prefix: seq<Card>, location: string, before: map<string, Tally>)
    requires before.Keys == LocationsOf(prefix) && location !in before
    requires forall l :: l in before ==> before[l] == Tally(CountAt(prefix, l), GrabbedAt(prefix, l))
    ensures var seeded := before[location := Tally(0, 0)];
      && seeded.Keys == LocationsOf(prefix) + {location}
      && forall l :: l in seeded ==> seeded[l] == Tally(CountAt(prefix, l), GrabbedAt(prefix, l))
  {
    CountAbsent(prefix, location);
  }

  /** Counting one more card at its location keeps every location's
      tally equal to the counts over the cards seen so far. */
  lemma TallyStep(prefix: seq<Card>, card: Card, seeded: map<string, Tally>)
    requires seeded.Keys == LocationsOf(prefix) + {card.location}
    requires forall l :: l in seeded ==> seeded[l] == Tally(CountAt(prefix, l), GrabbedAt(prefix, l))
    ensures var t := seeded[card.location];
      var after := seeded[card.location := Tally(t.total + 1, t.grabbed + if card.grabbed then 1 else 0)];
      && after.Keys == LocationsOf(prefix + [card])
      && forall l :: l in after ==> after[l] == Tally(CountAt(prefix + [card], l), GrabbedAt(prefix + [card], l))
  {
    LocationsOfSnoc(prefix, card);
    var t := seeded[card.location];
    var after := seeded[card.location := Tally(t.total + 1, t.grabbed + if card.grabbed then 1 else 0)];
    forall l | l in after
      ensures after[l] == Tally(CountAt(prefix + [card], l), GrabbedAt(prefix + [card], l))
    {
      CountSnoc(prefix, card, l);
    }
  }

  lemma CountSnoc(s: seq<Card>, c: Card, location: string)
    ensures CountAt(s + [c], location) == CountAt(s, location) + if c.location == location then 1 else 0
    ensures GrabbedAt(s + [c], location) == GrabbedAt(s, location) + if c.location == location && c.grabbed then 1 else 0
  {
    assert (s + [c])[..|s|] == s;
  }

  /** A location no card has counts zero cards and zero grabbed. */
  lemma {:induction false} CountAbsent(s: seq<Card>, location: string)
    requires location !in LocationsOf(s)
    ensures CountAt(s, location) == 0 && GrabbedAt(s, location) == 0
    decreases |s|
  {
    if s != [] {
      var init := s[..|s| - 1];
      assert s == init + [s[|s| - 1]];
      LocationsOfSnoc(init, s[|s| - 1]);
      CountAbsent(init, location);
    }
  }
}
