/** main of manapoolsheet.py: fetch the orders, keep those the chosen
    status filter selects, turn every line of every fetched order into one
    line item (resolving its location, its Scryfall image and, when images
    are downloaded, its local file), save the location mapping when a new
    set was assigned, and write the items in pick order.

    The marketplace, Scryfall and the disk are parameters: the order list
    (None when the request or its decoding fails), the details of each
    order id (None when the request fails or the order is empty), the
    Scryfall service, the image URLs that download, the files that exist,
    and the operator's input lines. */
module OrderExport {
  import opened Wrappers
  import opened Text
  import opened Ordering
  import opened Locations
  import opened Images
  import opened Scryfall
  import opened Picking

  const ShippedValue := "shipped"

  /** An order of the list endpoint: its id and its fulfillment_status. */
  datatype OrderSummary = OrderSummary(id: Option<string>, status: Option<string>)

  /** One entry of the order's "items", with absent keys as None. */
  datatype OrderLine = OrderLine(
    name: Option<string>, setCode: Option<string>, number: Option<string>,
    condition: Option<string>, finish: Option<string>, sku: Option<string>,
    quantity: int, priceCents: int)

  /** What get_order_details returns for a fetched order. */
  datatype OrderDetails = OrderDetails(orderLabel: Option<string>, lines: seq<OrderLine>)

  /** dict.get(key, default) */
  function OrElse(v: Option<string>, default: string): string {
    if v.Some? then v.value else default
  }

  // ---------------------------------------------------------------- the status filter

  predicate IsShipped(o: OrderSummary) { o.status == Some(ShippedValue) }

  predicate NotShipped(o: OrderSummary) { !IsShipped(o) }

  /** "1" keeps the orders not shipped, "2" the shipped ones, anything else
      all of them; all three keep the list order. */
  function FilterOrders(choice: string, orders: seq<OrderSummary>): seq<OrderSummary> {
    if choice == "1" then Filter(orders, NotShipped)
    else if choice == "2" then Filter(orders, IsShipped)
    else orders
  }

  /** Choices 1 and 2 keep exactly the orders of their kind and between
      them share out the whole list; choice 3 keeps it all. */
  lemma FilterOrdersSpec(orders: seq<OrderSummary>)
    ensures forall o :: o in FilterOrders("1", orders) <==> o in orders && !IsShipped(o)
    ensures forall o :: o in FilterOrders("2", orders) <==> o in orders && IsShipped(o)
    ensures multiset(FilterOrders("1", orders)) + multiset(FilterOrders("2", orders)) == multiset(orders)
    ensures FilterOrders("3", orders) == orders
  {
    FilterIn(orders, NotShipped);
    FilterIn(orders, IsShipped);
    FilterPartition(orders, IsShipped, NotShipped);
  }

  // ---------------------------------------------------------------- what the items come from

  /** An order line together with its order's id and label. */
  datatype Source = Source(orderId: string, orderLabel: string, line: OrderLine)

  /** The lines an order contributes: none without an id or without
      details, otherwise one per entry of its "items", in order. */
  function OrderSources(o: OrderSummary, details: string -> Option<OrderDetails>): seq<Source> {
    if o.id.None? || o.id.value == [] then []
    else if details(o.id.value).None? then []
    else
      var d := details(o.id.value).value;
      seq(|d.lines|, i requires 0 <= i < |d.lines| => Source(o.id.value, OrElse(d.orderLabel, "N/A"), d.lines[i]))
  }

  /** The lines of all the orders, order after order. */
  function AllSources(orders: seq<OrderSummary>, details: string -> Option<OrderDetails>): seq<Source>
    decreases |orders|
  {
    if orders == [] then []
    else AllSources(orders[..|orders| - 1], details) + OrderSources(orders[|orders| - 1], details)
  }

  /** The item main builds from a line, as far as it does not depend on
      the location mapping or the image cache. */
  predicate ItemFrom(item: LineItem, src: Source, service: Query -> Option<CardData>) {
    var l := src.line;
    var name := OrElse(l.name, "N/A");
    var setCode := OrElse(l.setCode, "N/A");
    var number := OrElse(l.number, "N/A");
    && item.orderId == src.orderId && item.orderLabel == src.orderLabel
    && item.quantity == l.quantity && item.priceCents == l.priceCents
    && item.name == name && item.setCode == setCode && item.number == number
    && item.condition == OrElse(l.condition, "N/A") && item.finish == OrElse(l.finish, "N/A")
    && item.sku == OrElse(l.sku, "N/A")
    && item.imageUri == ImageUri(name, setCode, number, service).0
  }

  /** The local image of an item: recorded exactly when images are
      downloaded and Scryfall gave a URL, and then an existing file or
      "N/A". */
  predicate LocalImageOk(item: LineItem, downloadImages: bool, files: set<string>) {
    && (item.localImagePath.Some? <==> downloadImages && item.imageUri != Images.NotAvailable)
    && (item.localImagePath.Some? ==>
          item.localImagePath.value == Images.NotAvailable || item.localImagePath.value in files)
  }

  /** The upper-cased set codes of the items. */
  function KeysOf(items: seq<LineItem>): set<string> {
    set i | 0 <= i < |items| :: Upper(items[i].setCode)
  }

  lemma KeysOfSnoc(items: seq<LineItem>, x: LineItem)
    ensures KeysOf(items + [x]) == KeysOf(items) + {Upper(x.setCode)}
  {
    var s := items + [x];
    forall k | k in KeysOf(s) ensures k in KeysOf(items) + {Upper(x.setCode)} {
      var i :| 0 <= i < |s| && Upper(s[i].setCode) == k;
      if i < |items| { assert s[i] == items[i]; }
    }
    forall k | k in KeysOf(items) ensures k in KeysOf(s) {
      var i :| 0 <= i < |items| && Upper(items[i].setCode) == k;
      assert s[i] == items[i];
    }
    assert s[|items|] == x;
  }

  /** The item's set is stored in the mapping with the item's location. */
  predicate ItemStored(x: LineItem, locations: map<string, string>) {
    Upper(x.setCode) in locations && locations[Upper(x.setCode)] == x.location
  }

  /** Every entry of m is still in m2, with the same value. */
  predicate Extends(m: map<string, string>, m2: map<string, string>) {
    forall k :: k in m ==> k in m2 && m2[k] == m[k]
  }

  lemma ExtendsTransitive(m: map<string, string>, m2: map<string, string>, m3: map<string, string>)
    requires Extends(m, m2) && Extends(m2, m3)
    ensures Extends(m, m3)
  {
  }

  /** items were built, one for one, from srcs. */
  predicate ItemsFrom(items: seq<LineItem>, srcs: seq<Source>, service: Query -> Option<CardData>) {
    |items| == |srcs| && forall i :: 0 <= i < |items| ==> ItemFrom(items[i], srcs[i], service)
  }

  lemma ItemsFromConcat(a: seq<LineItem>, s: seq<Source>, b: seq<LineItem>, t: seq<Source>,
                        service: Query -> Option<CardData>)
    requires ItemsFrom(a, s, service) && ItemsFrom(b, t, service)
    ensures ItemsFrom(a + b, s + t, service)
  {
    forall i | 0 <= i < |a + b| ensures ItemFrom((a + b)[i], (s + t)[i], service) {
      if i >= |a| {
        assert (a + b)[i] == b[i - |a|] && (s + t)[i] == t[i - |s|];
      }
    }
  }

  /** The invariant the item loop keeps over the location mapping, the sets
      found new this run and the files on disk: the mapping holds the
      initial sets and the new ones, the new ones are the items' sets that
      were not there at the start, and every item's location and local
      image agree with them. */
  predicate Consistent(items: seq<LineItem>, locations: map<string, string>, newSets: set<string>,
                       initial: set<string>, downloadImages: bool, files: set<string>)
  {
    && locations.Keys == initial + newSets
    && newSets == KeysOf(items) - initial
    && (forall i :: 0 <= i < |items| ==>
          ItemStored(items[i], locations) && LocalImageOk(items[i], downloadImages, files))
  }

  /** One more item, with the state changes MakeItem promises, keeps the
      invariant. */
  lemma ConsistentSnoc(items: seq<LineItem>, x: LineItem, initial: set<string>, downloadImages: bool,
                       locations: map<string, string>, newSets: set<string>, files: set<string>,
                       locations2: map<string, string>, newSets2: set<string>, files2: set<string>)
    requires Consistent(items, locations, newSets, initial, downloadImages, files)
    requires Extends(locations, locations2) && files <= files2
    requires ItemStored(x, locations2) && LocalImageOk(x, downloadImages, files2)
    requires locations2.Keys == locations.Keys + {Upper(x.setCode)}
    requires newSets2 == newSets + ({Upper(x.setCode)} - locations.Keys)
    ensures Consistent(items + [x], locations2, newSets2, initial, downloadImages, files2)
  {
    KeysOfSnoc(items, x);
    var s := items + [x];
    forall i | 0 <= i < |s| ensures ItemStored(s[i], locations2) && LocalImageOk(s[i], downloadImages, files2) {
      if i < |items| { assert s[i] == items[i]; }
    }
  }

  /** One more item built from the next line extends ItemsFrom by one line. */
  lemma ItemsFromStep(added: seq<LineItem>, srcs: seq<Source>, j: nat, x: LineItem,
                      service: Query -> Option<CardData>)
    requires j < |srcs| && ItemsFrom(added, srcs[..j], service) && ItemFrom(x, srcs[j], service)
    ensures ItemsFrom(added + [x], srcs[..j + 1], service)
  {
    ItemsFromConcat(added, srcs[..j], [x], [srcs[j]], service);
    assert srcs[..j] + [srcs[j]] == srcs[..j + 1];
  }

  // ---------------------------------------------------------------- the operator's input

  /** How far a run has got through the operator's input: the sets with a
      stored location, the distinct locations stored, and the lines not
      read yet; InputGone once a prompt found no line left (EOFError, which
      ends the program). */
  datatype Progress = Reading(known: set<string>, values: set<string>, lines: seq<string>) | InputGone

  function ProgressOf(locations: map<string, string>, lines: seq<string>): Progress {
    Reading(locations.Keys, locations.Values, lines)
  }

  /** The key main looks a line's set up by. */
  function SetKey(src: Source): string {
    Upper(OrElse(src.line.setCode, "N/A"))
  }

  /** What the location lookup of one set does to the progress: a stored
      set reads nothing; a new one is prompted for with the stored locations
      listed, after which it is stored, and a typed name is one more
      location. Only how many locations are listed matters, not their
      order. */
  function ResolveSet(key: string, p: Progress): Progress {
    if p.InputGone? || key in p.known then p
    else match ReadAnswer(|p.values|, p.lines)
      case RanOut => InputGone
      case Picked(_, rest) => Reading(p.known + {key}, p.values, rest)
      case Typed(name, rest) => Reading(p.known + {key}, p.values + {name}, rest)
  }

  /** The location lookups of the lines, in order. */
  function ResolveAll(srcs: seq<Source>, p: Progress): Progress
    decreases |srcs|
  {
    if srcs == [] then p else ResolveSet(SetKey(srcs[|srcs| - 1]), ResolveAll(srcs[..|srcs| - 1], p))
  }

  lemma {:induction false} ResolveAllAppend(a: seq<Source>, b: seq<Source>, p: Progress)
    ensures ResolveAll(a + b, p) == ResolveAll(b, ResolveAll(a, p))
    decreases |b|
  {
    if b == [] {
      assert a + b == a;
    } else {
      assert (a + b)[..|a + b| - 1] == a + b[..|b| - 1];
      assert (a + b)[|a + b| - 1] == b[|b| - 1];
      ResolveAllAppend(a, b[..|b| - 1], p);
    }
  }

  lemma {:induction false} ResolveAllGone(srcs: seq<Source>)
    ensures ResolveAll(srcs, InputGone) == InputGone
    decreases |srcs|
  {
    if srcs != [] {
      ResolveAllGone(srcs[..|srcs| - 1]);
    }
  }

  /** One more line, read from the progress so far. */
  lemma ResolveAllStep(srcs: seq<Source>, j: nat, start: Progress, p: Progress)
    requires j < |srcs| && ResolveAll(srcs[..j], start) == p
    ensures ResolveAll(srcs[..j + 1], start) == ResolveSet(SetKey(srcs[j]), p)
  {
    assert srcs[..j + 1][..j] == srcs[..j] && srcs[..j + 1][j] == srcs[j];
  }

  /** Once the input is gone, more lines change nothing. */
  lemma ResolveAllGonePrefix(a: seq<Source>, b: seq<Source>, start: Progress)
    requires ResolveAll(a, start).InputGone?
    ensures ResolveAll(a + b, start).InputGone?
  {
    ResolveAllAppend(a, b, start);
    ResolveAllGone(b);
  }

  /** When the input runs out at line j, it is gone for the whole order. */
  lemma ResolveAllStops(srcs: seq<Source>, j: nat, start: Progress, p: Progress)
    requires j < |srcs| && ResolveAll(srcs[..j], start) == p && ResolveSet(SetKey(srcs[j]), p).InputGone?
    ensures ResolveAll(srcs, start).InputGone?
  {
    var done, rest := srcs[..j + 1], srcs[j + 1..];
    assert done + rest == srcs;
    ResolveAllStep(srcs, j, start, p);
    ResolveAllGonePrefix(done, rest, start);
  }

  /** A run whose sets all have a stored location reads no line of input;
      and the input can only run out at a set without one. */
  lemma {:induction false} ResolveAllKnown(srcs: seq<Source>, p: Progress)
    requires p.Reading?
    ensures (forall i :: 0 <= i < |srcs| ==> SetKey(srcs[i]) in p.known) ==> ResolveAll(srcs, p) == p
    ensures ResolveAll(srcs, p).InputGone? ==> exists i :: 0 <= i < |srcs| && SetKey(srcs[i]) !in p.known
    decreases |srcs|
  {
    if srcs != [] {
      var init := srcs[..|srcs| - 1];
      ResolveAllKnown(init, p);
      var q := ResolveAll(init, p);
      if q.InputGone? {
        var i :| 0 <= i < |init| && SetKey(init[i]) !in p.known;
        assert srcs[i] == init[i];
      }
      if forall i :: 0 <= i < |srcs| ==> SetKey(srcs[i]) in p.known {
        forall i | 0 <= i < |init| ensures SetKey(init[i]) in p.known {
          assert init[i] == srcs[i];
        }
      }
    }
  }

  /** One more order: its lines follow the earlier orders' lines, and are
      read from the progress those left. */
  lemma AllSourcesStep(orders: seq<OrderSummary>, i: nat, details: string -> Option<OrderDetails>,
                       start: Progress, p: Progress)
    requires i < |orders| && ResolveAll(AllSources(orders[..i], details), start) == p
    ensures AllSources(orders[..i + 1], details) == AllSources(orders[..i], details) + OrderSources(orders[i], details)
    ensures ResolveAll(AllSources(orders[..i + 1], details), start) == ResolveAll(OrderSources(orders[i], details), p)
  {
    assert orders[..i + 1][..i] == orders[..i];
    ResolveAllAppend(AllSources(orders[..i], details), OrderSources(orders[i], details), start);
  }

  /** Once the input is gone after the lines of the first i orders, it is
      gone after all of them. */
  lemma {:induction false} ResolveAllGoneAfter(orders: seq<OrderSummary>, i: nat,
                                               details: string -> Option<OrderDetails>, p: Progress)
    requires i <= |orders| && ResolveAll(AllSources(orders[..i], details), p).InputGone?
    ensures ResolveAll(AllSources(orders, details), p).InputGone?
    decreases |orders| - i
  {
    if i == |orders| {
      assert orders[..i] == orders;
    } else {
      assert orders[..i + 1][..i] == orders[..i];
      ResolveAllAppend(AllSources(orders[..i], details), OrderSources(orders[i], details), p);
      ResolveAllGone(OrderSources(orders[i], details));
      ResolveAllGoneAfter(orders, i + 1, details, p);
    }
  }

  /** A new key stored in a mapping adds its value to the mapping's values. */
  lemma StoreNewKey(m: map<string, string>, key: string, v: string)
    requires key !in m
    ensures m[key := v].Keys == m.Keys + {key} && m[key := v].Values == m.Values + {v}
  {
    forall x | x in m.Values ensures x in m[key := v].Values {
      var k :| k in m && m[k] == x;
      assert m[key := v][k] == x;
    }
    assert m[key := v][key] == v;
  }

  /** What GetLocationForSet promises, read as a step of the progress. */
  lemma ResolveSetStep(key: string, locations: map<string, string>, newSets: set<string>,
                       input: seq<string>, r: Option<string>, listed: seq<string>,
                       locations2: map<string, string>, input2: seq<string>)
    requires newSets <= locations.Keys
    requires key in locations ==> locations2 == locations && input2 == input && r.Some?
    requires key !in locations ==>
      && |listed| == |locations.Values| && (forall x :: x in listed ==> x in locations.Values)
      && match Prompt(listed, input)
         case Exhausted => r == None && locations2 == locations && input2 == []
         case Chosen(location, rest) =>
           r == Some(location) && locations2 == locations[key := location] && input2 == rest
    ensures var after := ResolveSet(key, ProgressOf(locations, input));
      && (r.None? <==> after.InputGone?)
      && (r.Some? ==> after == ProgressOf(locations2, input2))
  {
    if key !in locations {
      var a := ReadAnswer(|listed|, input);
      assert ResolveSet(key, ProgressOf(locations, input)) ==
        match a
        case RanOut => InputGone
        case Picked(_, rest) => Reading(locations.Keys + {key}, locations.Values, rest)
        case Typed(name, rest) => Reading(locations.Keys + {key}, locations.Values + {name}, rest);
      match a
      case RanOut =>
      case Picked(i, rest) =>
        assert Prompt(listed, input) == Chosen(listed[i], rest);
        StoreNewKey(locations, key, listed[i]);
        assert listed[i] in listed;
        assert locations.Values + {listed[i]} == locations.Values;
      case Typed(name, rest) =>
        assert Prompt(listed, input) == Chosen(name, rest);
        StoreNewKey(locations, key, name);
    }
  }

  // ---------------------------------------------------------------- the image cache

  /** The key generate_image_key gives an item. */
  function ImageKeyOf(x: LineItem): string {
    ImageKey(x.name, x.setCode, x.number)
  }

  /** image_cache after the items, in order, starting from loaded: every
      item with a local image records it under its key. */
  function CacheAfter(loaded: map<string, string>, items: seq<LineItem>): map<string, string>
    decreases |items|
  {
    if items == [] then loaded
    else
      var c := CacheAfter(loaded, items[..|items| - 1]);
      var x := items[|items| - 1];
      if x.localImagePath.Some? then c[ImageKeyOf(x) := x.localImagePath.value] else c
  }

  /** An item with a local image whose key no later such item shares. */
  predicate LastWithKey(items: seq<LineItem>, i: int) {
    && 0 <= i < |items| && items[i].localImagePath.Some?
    && forall j :: i < j < |items| && items[j].localImagePath.Some? ==> ImageKeyOf(items[j]) != ImageKeyOf(items[i])
  }

  /** The cache holds the loaded keys and those of the items with a local
      image. */
  lemma {:induction false} CacheAfterKeys(loaded: map<string, string>, items: seq<LineItem>)
    ensures forall k :: k in CacheAfter(loaded, items) <==>
      k in loaded || exists i :: 0 <= i < |items| && items[i].localImagePath.Some? && ImageKeyOf(items[i]) == k
    decreases |items|
  {
    if items != [] {
      var init := items[..|items| - 1];
      CacheAfterKeys(loaded, init);
      forall k ensures k in CacheAfter(loaded, items) <==>
        k in loaded || exists i :: 0 <= i < |items| && items[i].localImagePath.Some? && ImageKeyOf(items[i]) == k
      {
        if exists i :: 0 <= i < |items| && items[i].localImagePath.Some? && ImageKeyOf(items[i]) == k {
          var i :| 0 <= i < |items| && items[i].localImagePath.Some? && ImageKeyOf(items[i]) == k;
          if i < |init| { assert items[i] == init[i]; }
        }
        if exists i :: 0 <= i < |init| && init[i].localImagePath.Some? && ImageKeyOf(init[i]) == k {
          var i :| 0 <= i < |init| && init[i].localImagePath.Some? && ImageKeyOf(init[i]) == k;
          assert items[i] == init[i];
        }
      }
    }
  }

  /** An item's key holds the path of the last item with that key. */
  lemma {:induction false} CacheAfterLastWins(loaded: map<string, string>, items: seq<LineItem>, i: int)
    requires LastWithKey(items, i)
    ensures ImageKeyOf(items[i]) in CacheAfter(loaded, items)
    ensures CacheAfter(loaded, items)[ImageKeyOf(items[i])] == items[i].localImagePath.value
    decreases |items|
  {
    var init := items[..|items| - 1];
    if i < |init| {
      assert items[i] == init[i];
      forall j | i < j < |init| && init[j].localImagePath.Some? ensures ImageKeyOf(init[j]) != ImageKeyOf(init[i]) {
        assert init[j] == items[j];
      }
      CacheAfterLastWins(loaded, init, i);
    }
  }

  /** A loaded entry no item's image replaces is kept. */
  lemma {:induction false} CacheAfterKeepsLoaded(loaded: map<string, string>, items: seq<LineItem>, k: string)
    requires k in loaded
    requires forall i :: 0 <= i < |items| && items[i].localImagePath.Some? ==> ImageKeyOf(items[i]) != k
    ensures k in CacheAfter(loaded, items) && CacheAfter(loaded, items)[k] == loaded[k]
    decreases |items|
  {
    if items != [] {
      var init := items[..|items| - 1];
      forall i | 0 <= i < |init| && init[i].localImagePath.Some? ensures ImageKeyOf(init[i]) != k {
        assert init[i] == items[i];
      }
      CacheAfterKeepsLoaded(loaded, init, k);
    }
  }

  /** The images the items can have downloaded. */
  function ImagePaths(items: seq<LineItem>): set<string> {
    set i | 0 <= i < |items| :: ImagePath(ImageKeyOf(items[i]))
  }

  lemma ImagePathsSnoc(items: seq<LineItem>, x: LineItem)
    ensures ImagePaths(items + [x]) == ImagePaths(items) + {ImagePath(ImageKeyOf(x))}
  {
    var s := items + [x];
    forall f | f in ImagePaths(s) ensures f in ImagePaths(items) + {ImagePath(ImageKeyOf(x))} {
      var i :| 0 <= i < |s| && ImagePath(ImageKeyOf(s[i])) == f;
      if i < |items| { assert s[i] == items[i]; }
    }
    forall f | f in ImagePaths(items) ensures f in ImagePaths(s) {
      var i :| 0 <= i < |items| && ImagePath(ImageKeyOf(items[i])) == f;
      assert s[i] == items[i];
    }
    assert s[|items|] == x;
  }

  lemma LocalImageOkWider(x: LineItem, downloadImages: bool, files: set<string>, files2: set<string>)
    requires LocalImageOk(x, downloadImages, files) && files <= files2
    ensures LocalImageOk(x, downloadImages, files2)
  {
  }

  /** What building one item x from src does to the state: x is the line's
      item, its set is stored with its location (a new set is recorded as
      found), its local image is one of the files and is recorded in the
      cache under its key, and the only file that can appear is its image. */
  ghost predicate ItemStep(x: LineItem, src: Source, service: Query -> Option<CardData>, downloadImages: bool,
                           locations: map<string, string>, newSets: set<string>,
                           entries: map<string, string>, files: set<string>,
                           locations2: map<string, string>, newSets2: set<string>,
                           entries2: map<string, string>, files2: set<string>)
  {
    && ItemFrom(x, src, service)
    && LocalImageOk(x, downloadImages, files2)
    && ItemStored(x, locations2) && Extends(locations, locations2)
    && locations2.Keys == locations.Keys + {Upper(x.setCode)}
    && newSets2 == newSets + ({Upper(x.setCode)} - locations.Keys)
    && entries2 == (if x.localImagePath.Some? then entries[ImageKeyOf(x) := x.localImagePath.value] else entries)
    && files <= files2 <= files + {ImagePath(ImageKeyOf(x))}
  }

  /** The invariant of the item loops: Consistent, the cache is the loaded
      one with the items' images recorded, and every file is one that
      existed or one of the items' images. */
  ghost predicate Assembled(items: seq<LineItem>, locations: map<string, string>, newSets: set<string>,
                            entries: map<string, string>, files: set<string>, initial: map<string, string>,
                            loaded: map<string, string>, existing: set<string>, downloadImages: bool)
  {
    && Extends(initial, locations)
    && Consistent(items, locations, newSets, initial.Keys, downloadImages, files)
    && entries == CacheAfter(loaded, items)
    && files <= existing + ImagePaths(items)
  }

  /** No item yet: the invariant holds of the state as loaded. */
  lemma AssembledStart(locations: map<string, string>, entries: map<string, string>, files: set<string>,
                       downloadImages: bool)
    ensures Assembled([], locations, {}, entries, files, locations, entries, files, downloadImages)
  {
    assert KeysOf([]) == {};
    assert ImagePaths([]) == {};
  }

  /** One more item keeps the invariant. */
  lemma AssembledStep(prefix: seq<LineItem>, added: seq<LineItem>, x: LineItem, src: Source,
                      service: Query -> Option<CardData>, downloadImages: bool, initial: map<string, string>,
                      loaded: map<string, string>, existing: set<string>,
                      locations: map<string, string>, newSets: set<string>,
                      entries: map<string, string>, files: set<string>,
                      locations2: map<string, string>, newSets2: set<string>,
                      entries2: map<string, string>, files2: set<string>)
    requires Assembled(prefix + added, locations, newSets, entries, files, initial, loaded, existing, downloadImages)
    requires ItemStep(x, src, service, downloadImages, locations, newSets, entries, files,
                      locations2, newSets2, entries2, files2)
    ensures Assembled(prefix + (added + [x]), locations2, newSets2, entries2, files2, initial, loaded, existing,
                      downloadImages)
  {
    var s := prefix + added;
    assert prefix + (added + [x]) == s + [x];
    ExtendsTransitive(initial, locations, locations2);
    ConsistentSnoc(s, x, initial.Keys, downloadImages, locations, newSets, files, locations2, newSets2, files2);
    ImagePathsSnoc(s, x);
    assert (s + [x])[..|s + [x]| - 1] == s;
  }

  // ---------------------------------------------------------------- the item loop

  /** The image part of the loop body: with downloads on and a Scryfall
      URL, the cache step gives the local path and records it under the
      image key; otherwise there is no local path and nothing changes. */
  method LocalImagePath(name: string, setCode: string, number: string, uri: string, downloadImages: bool,
                        cache: ImageCache, store: ImageStore, reachable: string -> bool)
    returns (localPath: Option<string>)
    modifies cache, store
    ensures localPath.Some? <==> downloadImages && uri != Images.NotAvailable
    ensures localPath.Some? ==> localPath.value == Images.NotAvailable || localPath.value in store.files
    ensures old(store.files) <= store.files <= old(store.files) + {ImagePath(ImageKey(name, setCode, number))}
    ensures cache.entries == if localPath.Some? then old(cache.entries)[ImageKey(name, setCode, number) := localPath.value]
                             else old(cache.entries)
  {
    localPath := None;
    if downloadImages && uri != Images.NotAvailable {
      var key := ImageKey(name, setCode, number);
      var path := cache.LocalImage(uri, key, store, reachable);
      localPath := Some(path);
    }
  }

  /** The location lookup of the loop body (get_location_for_set) for one
      line, as a step of the progress. */
  method LocationForLine(src: Source, resolver: LocationResolver) returns (location: Option<string>)
    requires resolver.Valid() && resolver.newSetsFound <= resolver.locations.Keys
    modifies resolver
    ensures resolver.Valid()
    ensures var after := ResolveSet(SetKey(src), ProgressOf(old(resolver.locations), old(resolver.input)));
      && (location.None? <==> after.InputGone?)
      && (location.Some? ==> after == ProgressOf(resolver.locations, resolver.input))
    ensures location.None? ==> resolver.input == [] && resolver.locations == old(resolver.locations)
    ensures location.Some? ==>
      var key := SetKey(src);
      && key in resolver.locations && resolver.locations[key] == location.value
      && Extends(old(resolver.locations), resolver.locations)
      && resolver.locations.Keys == old(resolver.locations).Keys + {key}
      && resolver.newSetsFound == old(resolver.newSetsFound) + ({key} - old(resolver.locations).Keys)
  {
    var setCode := OrElse(src.line.setCode, "N/A");
    ghost var locations, newSets, input := resolver.locations, resolver.newSetsFound, resolver.input;
    ghost var listed;
    location, listed := resolver.GetLocationForSet(setCode);
    ResolveSetStep(Upper(setCode), locations, newSets, input, location, listed, resolver.locations, resolver.input);
  }

  /** The body of the inner loop of main for one order line. None means
      the operator's input ran out while a location was being chosen,
      exactly when ResolveSet says so. */
  method MakeItem(src: Source, resolver: LocationResolver, service: Query -> Option<CardData>,
                  downloadImages: bool, cache: ImageCache, store: ImageStore, reachable: string -> bool)
    returns (item: Option<LineItem>)
    requires resolver.Valid() && resolver.newSetsFound <= resolver.locations.Keys
    modifies resolver, cache, store
    ensures resolver.Valid()
    ensures Extends(old(resolver.locations), resolver.locations)
    ensures var after := ResolveSet(SetKey(src), ProgressOf(old(resolver.locations), old(resolver.input)));
      && (item.None? <==> after.InputGone?)
      && (item.Some? ==> after == ProgressOf(resolver.locations, resolver.input))
    ensures item.None? ==>
      && resolver.input == [] && resolver.locations == old(resolver.locations)
      && cache.entries == old(cache.entries) && store.files == old(store.files)
    ensures item.Some? ==>
      ItemStep(item.value, src, service, downloadImages,
               old(resolver.locations), old(resolver.newSetsFound), old(cache.entries), old(store.files),
               resolver.locations, resolver.newSetsFound, cache.entries, store.files)
  {
    var l := src.line;
    var name := OrElse(l.name, "N/A");
    var setCode := OrElse(l.setCode, "N/A");
    var number := OrElse(l.number, "N/A");
    var location := LocationForLine(src, resolver);
    if location.None? {
      return None;
    }
    var uri := ImageUri(name, setCode, number, service).0;
    var localPath := LocalImagePath(name, setCode, number, uri, downloadImages, cache, store, reachable);
    item := Some(LineItem(
      src.orderId, src.orderLabel, location.value, l.quantity, name, setCode, number,
      OrElse(l.condition, "N/A"), OrElse(l.finish, "N/A"), l.priceCents,
      OrElse(l.sku, "N/A"), uri, localPath));
  }

  /** The inner loop of main over the lines of one order. ended means the
      operator's input ran out, exactly when ResolveAll says so; otherwise
      one item per line was appended, and the invariant holds of the items
      so far. */
  method AppendItems(prefix: seq<LineItem>, srcs: seq<Source>, ghost initial: map<string, string>,
                     ghost loaded: map<string, string>, ghost existing: set<string>,
                     resolver: LocationResolver, service: Query -> Option<CardData>,
                     downloadImages: bool, cache: ImageCache, store: ImageStore, reachable: string -> bool)
    returns (added: seq<LineItem>, ended: bool)
    requires resolver.Valid()
    requires Assembled(prefix, resolver.locations, resolver.newSetsFound, cache.entries, store.files,
                       initial, loaded, existing, downloadImages)
    modifies resolver, cache, store
    ensures resolver.Valid()
    ensures var p := ResolveAll(srcs, ProgressOf(old(resolver.locations), old(resolver.input)));
      && (ended <==> p.InputGone?)
      && (!ended ==> p == ProgressOf(resolver.locations, resolver.input))
    ensures ended ==> resolver.input == []
    ensures !ended ==>
      && ItemsFrom(added, srcs, service)
      && Assembled(prefix + added, resolver.locations, resolver.newSetsFound, cache.entries, store.files,
                   initial, loaded, existing, downloadImages)
  {
    ghost var start := ProgressOf(resolver.locations, resolver.input);
    added := [];
    ended := false;
    assert prefix + added == prefix;
    var j := 0;
    while j < |srcs|
      invariant 0 <= j <= |srcs|
      invariant resolver.Valid()
      invariant ItemsFrom(added, srcs[..j], service)
      invariant Assembled(prefix + added, resolver.locations, resolver.newSetsFound, cache.entries, store.files,
                          initial, loaded, existing, downloadImages)
      invariant ResolveAll(srcs[..j], start) == ProgressOf(resolver.locations, resolver.input)
    {
      ghost var locations, newSets, entries, files := resolver.locations, resolver.newSetsFound, cache.entries, store.files;
      ghost var p := ProgressOf(resolver.locations, resolver.input);
      var item := MakeItem(srcs[j], resolver, service, downloadImages, cache, store, reachable);
      if item.None? {
        ended := true;
        ResolveAllStops(srcs, j, start, p);
        return;
      }
      ResolveAllStep(srcs, j, start, p);
      AssembledStep(prefix, added, item.value, srcs[j], service, downloadImages, initial, loaded, existing,
                    locations, newSets, entries, files,
                    resolver.locations, resolver.newSetsFound, cache.entries, store.files);
      ItemsFromStep(added, srcs, j, item.value, service);
      added := added + [item.value];
      j := j + 1;
    }
    assert srcs[..j] == srcs;
  }

  /** The loop over all the orders kept by the filter. An order without an
      id, or whose details cannot be fetched, contributes no line (the two
      `continue`s), which OrderSources states. ended means the operator's
      input ran out, which stops the program, exactly when ResolveAll says
      so. */
  method AssembleItems(orders: seq<OrderSummary>, details: string -> Option<OrderDetails>,
                       resolver: LocationResolver, service: Query -> Option<CardData>,
                       downloadImages: bool, cache: ImageCache, store: ImageStore, reachable: string -> bool)
    returns (items: seq<LineItem>, ended: bool)
    requires resolver.Valid() && resolver.newSetsFound == {}
    modifies resolver, cache, store
    ensures resolver.Valid()
    ensures var p := ResolveAll(AllSources(orders, details), ProgressOf(old(resolver.locations), old(resolver.input)));
      && (ended <==> p.InputGone?)
      && (!ended ==> p == ProgressOf(resolver.locations, resolver.input))
    ensures ended ==> resolver.input == []
    ensures !ended ==>
      && ItemsFrom(items, AllSources(orders, details), service)
      && Assembled(items, resolver.locations, resolver.newSetsFound, cache.entries, store.files,
                   old(resolver.locations), old(cache.entries), old(store.files), downloadImages)
  {
    ghost var initial := resolver.locations;
    ghost var start := ProgressOf(resolver.locations, resolver.input);
    ghost var loaded, existing := cache.entries, store.files;
    items := [];
    ended := false;
    var i := 0;
    AssembledStart(initial, loaded, existing, downloadImages);
    assert orders[..0] == [];
    while i < |orders|
      invariant 0 <= i <= |orders|
      invariant resolver.Valid()
      invariant ItemsFrom(items, AllSources(orders[..i], details), service)
      invariant Assembled(items, resolver.locations, resolver.newSetsFound, cache.entries, store.files,
                          initial, loaded, existing, downloadImages)
      invariant ResolveAll(AllSources(orders[..i], details), start) == ProgressOf(resolver.locations, resolver.input)
    {
      var srcs := OrderSources(orders[i], details);
      AllSourcesStep(orders, i, details, start, ProgressOf(resolver.locations, resolver.input));
      var added, stop := AppendItems(items, srcs, initial, loaded, existing, resolver, service,
                                     downloadImages, cache, store, reachable);
      if stop {
        ended := true;
        ResolveAllGoneAfter(orders, i + 1, details, start);
        return;
      }
      ItemsFromConcat(items, AllSources(orders[..i], details), added, srcs, service);
      items := items + added;
      i := i + 1;
    }
    assert orders[..i] == orders;
  }

  // ---------------------------------------------------------------- the run

  datatype ExportOutcome =
    | MissingCredentials
    | FetchFailed
    | NoMatchingOrders
    | InputEnded
    | NoItems
      /** the rows written, the mapping saved to locations.json (None when
          it is not written) and the image cache saved (likewise) */
    | Exported(rows: seq<LineItem>, savedLocations: Option<map<string, string>>,
               savedImageCache: Option<map<string, string>>)

  /** Some set was found new exactly when some item's set was not in the
      mapping at the start. */
  lemma NewSetsAreUnknownSets(items: seq<LineItem>, locations: map<string, string>, newSets: set<string>,
                              initial: map<string, string>, downloadImages: bool, files: set<string>)
    requires Consistent(items, locations, newSets, initial.Keys, downloadImages, files)
    ensures newSets != {} <==> exists i :: 0 <= i < |items| && Upper(items[i].setCode) !in initial
  {
    if newSets != {} {
      var k :| k in newSets;
      var i :| 0 <= i < |items| && Upper(items[i].setCode) == k;
    }
    if exists i :: 0 <= i < |items| && Upper(items[i].setCode) !in initial {
      var i :| 0 <= i < |items| && Upper(items[i].setCode) !in initial;
      assert Upper(items[i].setCode) in KeysOf(items);
    }
  }

  /** With no new set the mapping is the one loaded, so every item's set is
      stored there. */
  lemma NoNewSetKeepsMapping(items: seq<LineItem>, locations: map<string, string>,
                             initial: map<string, string>, downloadImages: bool, files: set<string>)
    requires Consistent(items, locations, {}, initial.Keys, downloadImages, files)
    requires Extends(initial, locations)
    ensures locations == initial
    ensures forall i :: 0 <= i < |items| ==> ItemStored(items[i], initial)
  {
    assert locations.Keys == initial.Keys;
  }

  /** The image cache written is not empty exactly when one was loaded or
      some item has a local image. */
  lemma CacheAfterEmpty(loaded: map<string, string>, items: seq<LineItem>)
    ensures CacheAfter(loaded, items) != map[] <==>
      loaded != map[] || exists i :: 0 <= i < |items| && items[i].localImagePath.Some?
  {
    CacheAfterKeys(loaded, items);
    if loaded != map[] {
      var k :| k in loaded;
      assert k in CacheAfter(loaded, items);
    }
    if exists i :: 0 <= i < |items| && items[i].localImagePath.Some? {
      var i :| 0 <= i < |items| && items[i].localImagePath.Some?;
      assert ImageKeyOf(items[i]) in CacheAfter(loaded, items);
    }
    if CacheAfter(loaded, items) != map[] {
      var k :| k in CacheAfter(loaded, items);
    }
  }

  /** What the state after a completed item loop says about the items:
      their local images, whether a set was new, where each item's set is
      stored, and whether the cache is empty. */
  lemma ExportedFacts(items: seq<LineItem>, locations: map<string, string>, newSets: set<string>,
                      entries: map<string, string>, files: set<string>, initial: map<string, string>,
                      loaded: map<string, string>, existing: set<string>, downloadImages: bool)
    requires Assembled(items, locations, newSets, entries, files, initial, loaded, existing, downloadImages)
    ensures forall i :: 0 <= i < |items| ==> LocalImageOk(items[i], downloadImages, existing + ImagePaths(items))
    ensures newSets != {} <==> exists i :: 0 <= i < |items| && Upper(items[i].setCode) !in initial
    ensures newSets == {} ==> locations == initial
    ensures forall i :: 0 <= i < |items| ==> ItemStored(items[i], locations)
  {
    forall i | 0 <= i < |items| ensures LocalImageOk(items[i], downloadImages, existing + ImagePaths(items)) {
      LocalImageOkWider(items[i], downloadImages, files, existing + ImagePaths(items));
    }
    NewSetsAreUnknownSets(items, locations, newSets, initial, downloadImages, files);
    if newSets == {} {
      NoNewSetKeepsMapping(items, locations, initial, downloadImages, files);
    }
  }

  /** The cache main saves: only with downloads on and when not empty, and
      then the loaded cache with the items' images recorded. */
  lemma SavedCache(entries: map<string, string>, loaded: map<string, string>, items: seq<LineItem>,
                   downloadImages: bool, saved: Option<map<string, string>>)
    requires entries == CacheAfter(if downloadImages then loaded else map[], items)
    requires saved == if downloadImages && entries != map[] then Some(entries) else None
    ensures saved.Some? <==>
      downloadImages && (loaded != map[] || exists i :: 0 <= i < |items| && items[i].localImagePath.Some?)
    ensures saved.Some? ==> saved.value == CacheAfter(loaded, items)
  {
    if downloadImages {
      CacheAfterEmpty(loaded, items);
    }
  }

  /** What a completed export writes, for the items built from locations.json
      as loaded (`initial`) and the image cache as loaded. */
  ghost predicate ExportedOk(items: seq<LineItem>, savedLocations: Option<map<string, string>>,
                             savedImageCache: Option<map<string, string>>, initial: map<string, string>,
                             downloadImages: bool, loaded: map<string, string>, existing: set<string>)
  {
    // every local image is "N/A", a file that existed or one downloaded
    && (forall i :: 0 <= i < |items| ==> LocalImageOk(items[i], downloadImages, existing + ImagePaths(items)))
    // locations.json is rewritten exactly when some item's set was new
    && (savedLocations.Some? <==> exists i :: 0 <= i < |items| && Upper(items[i].setCode) !in initial)
    // and then it keeps every stored entry and records every item's location
    && (savedLocations.Some? ==>
          && Extends(initial, savedLocations.value)
          && (forall i :: 0 <= i < |items| ==> ItemStored(items[i], savedLocations.value)))
    // otherwise every item's set was stored already, with the item's location
    && (savedLocations.None? ==> forall i :: 0 <= i < |items| ==> ItemStored(items[i], initial))
    // the image cache is written when images are downloaded and it is not
    // empty, and it is the loaded one with every item's image recorded
    && (savedImageCache.Some? <==>
          downloadImages && (loaded != map[] || exists i :: 0 <= i < |items| && items[i].localImagePath.Some?))
    && (savedImageCache.Some? ==> savedImageCache.value == CacheAfter(loaded, items))
  }

  /** What main saves after a completed item loop. */
  lemma ExportedSaves(items: seq<LineItem>, locations: map<string, string>, newSets: set<string>,
                      entries: map<string, string>, files: set<string>, initial: map<string, string>,
                      loaded: map<string, string>, existing: set<string>, downloadImages: bool,
                      savedLocations: Option<map<string, string>>, savedImageCache: Option<map<string, string>>)
    requires Assembled(items, locations, newSets, entries, files, initial,
                       if downloadImages then loaded else map[], existing, downloadImages)
    requires savedLocations == if newSets != {} then Some(locations) else None
    requires savedImageCache == if downloadImages && entries != map[] then Some(entries) else None
    ensures ExportedOk(items, savedLocations, savedImageCache, initial, downloadImages, loaded, existing)
  {
    ExportedFacts(items, locations, newSets, entries, files, initial,
                  if downloadImages then loaded else map[], existing, downloadImages);
    SavedCache(entries, loaded, items, downloadImages, savedImageCache);
  }

  /** The progress at the start of a run: the mapping load_set_locations
      returns and every line the operator will type. */
  function StartOf(locationPairs: seq<(string, string)>, operatorLines: seq<string>): Progress {
    ProgressOf(NormalizeKeys(locationPairs), operatorLines)
  }

  /** main from the credentials check to the sorted export. */
  method RunExport(hasCredentials: bool, fetched: Option<seq<OrderSummary>>, choice: string,
                   details: string -> Option<OrderDetails>, service: Query -> Option<CardData>,
                   locationPairs: seq<(string, string)>, operatorLines: seq<string>,
                   downloadImages: bool, loadedImageCache: map<string, string>,
                   existingFiles: set<string>, reachable: string -> bool)
    returns (outcome: ExportOutcome, ghost items: seq<LineItem>)
    ensures !hasCredentials ==> outcome == MissingCredentials
    ensures hasCredentials && fetched.None? ==> outcome == FetchFailed
    ensures hasCredentials && fetched.Some? && FilterOrders(choice, fetched.value) == [] ==>
      outcome == NoMatchingOrders
    // past the filter: the input runs out exactly when the prompts need
    // more lines than there are, and without any line there is no item
    ensures hasCredentials && fetched.Some? && FilterOrders(choice, fetched.value) != [] ==>
      var sources := AllSources(FilterOrders(choice, fetched.value), details);
      && (outcome.InputEnded? <==> ResolveAll(sources, StartOf(locationPairs, operatorLines)).InputGone?)
      && (sources == [] ==> outcome == NoItems)
    ensures outcome.NoItems? ==>
      fetched.Some? && AllSources(FilterOrders(choice, fetched.value), details) == []
    ensures outcome.Exported? ==>
      && fetched.Some?
      && var sources := AllSources(FilterOrders(choice, fetched.value), details);
      && sources != []
      && ItemsFrom(items, sources, service)
      // the rows are the items in pick order
      && outcome.rows == PickOrder(items)
      && ExportedOk(items, outcome.savedLocations, outcome.savedImageCache, NormalizeKeys(locationPairs),
                    downloadImages, loadedImageCache, existingFiles)
  {
    items := [];
    if !hasCredentials {
      return MissingCredentials, items;
    }
    if fetched.None? {
      return FetchFailed, items;
    }
    var filtered := FilterOrders(choice, fetched.value);
    if filtered == [] {
      return NoMatchingOrders, items;
    }
    var resolver := new LocationResolver(locationPairs, operatorLines);
    var cache := new ImageCache(if downloadImages then loadedImageCache else map[]);
    var store := new ImageStore(existingFiles);
    var assembled, ended := AssembleItems(filtered, details, resolver, service,
                                          downloadImages, cache, store, reachable);
    items := assembled;
    if ended {
      return InputEnded, items;
    }
    if assembled == [] {
      return NoItems, items;
    }
    var savedLocations: Option<map<string, string>> := None;
    if resolver.newSetsFound != {} {
      var saved := resolver.SavedMapping();
      savedLocations := Some(saved);
    }
    var savedCache := if downloadImages && cache.entries != map[] then Some(cache.entries) else None;
    ExportedSaves(items, resolver.locations, resolver.newSetsFound, cache.entries, store.files,
                  NormalizeKeys(locationPairs), loadedImageCache, existingFiles, downloadImages,
                  savedLocations, savedCache);
    outcome := Exported(PickOrder(assembled), savedLocations, savedCache);
  }
}
