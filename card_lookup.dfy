/** The Scryfall lookups of both programs, with the service given as a
    function from a query to the card it answers with. None stands for
    every way a lookup can come back empty-handed: the request raises, the
    status is not a success, the body is not the expected JSON, or a search
    returns no card.

    manapoolsheet.py asks for a card by print (set and collector number)
    and falls back to a fuzzy name lookup only when the first request
    fails. picklist_gui.py asks by print, then by name, then (for images)
    by a name-and-set search, moving on whenever it has nothing usable yet,
    and reads prices from the first populated price field. */
module Scryfall {
  import opened Wrappers
  import opened Text

  datatype Query =
    | ByPrint(setCode: string, number: string)   // cards/{set}/{number}
    | ByName(name: string)                        // cards/named?fuzzy={name}
    | Search(name: string, setCode: string)       // cards/search?q=name:{name}+set:{set}

  /** A card object as far as the programs read it: image_uris.normal when
      present, and the prices object (None for a JSON null). */
  datatype CardData = CardData(normal: Option<string>, prices: map<string, Option<string>>)

  const NotAvailable := "N/A"

  /** image_uris.normal, or the given default. */
  function NormalOr(d: CardData, default: string): string {
    if d.normal.Some? then d.normal.value else default
  }

  /** The answer of the last query in qs that was answered. */
  function LastAnswer(qs: seq<Query>, service: Query -> Option<CardData>): Option<CardData>
    decreases |qs|
  {
    if qs == [] then None
    else if service(qs[|qs| - 1]).Some? then service(qs[|qs| - 1])
    else LastAnswer(qs[..|qs| - 1], service)
  }

  // ---------------------------------------------------------------- manapoolsheet

  /** get_scryfall_image_uri: the image URL and the queries it made. An
      answer without image_uris is final and gives "N/A". */
  function ImageUri(name: string, setCode: string, number: string, service: Query -> Option<CardData>): (string, seq<Query>) {
    var exact := ByPrint(Lower(setCode), number);
    if service(exact).Some? then (NormalOr(service(exact).value, NotAvailable), [exact])
    else
      var fuzzy := ByName(name);
      if service(fuzzy).Some? then (NormalOr(service(fuzzy).value, NotAvailable), [exact, fuzzy])
      else (NotAvailable, [exact, fuzzy])
  }

  /** The print lookup always runs; the name lookup runs exactly when the
      print lookup failed; the URL is the image of the one answer, "N/A"
      when that answer has no image or nothing answered. */
  lemma ImageUriSpec(name: string, setCode: string, number: string, service: Query -> Option<CardData>)
    ensures var (uri, asked) := ImageUri(name, setCode, number, service);
      && 1 <= |asked| <= 2 && asked[0] == ByPrint(Lower(setCode), number)
      && (ByName(name) in asked <==> service(ByPrint(Lower(setCode), number)).None?)
      && (forall i :: 0 <= i < |asked| - 1 ==> service(asked[i]).None?)
      && uri == (if LastAnswer(asked, service).Some? then NormalOr(LastAnswer(asked, service).value, NotAvailable) else NotAvailable)
  {
    var exact := ByPrint(Lower(setCode), number);
    var (uri, asked) := ImageUri(name, setCode, number, service);
    if service(exact).None? {
      assert asked == [exact, ByName(name)];
      assert asked[..1] == [exact];
      assert [exact][..0] == [];
      assert LastAnswer([exact], service) == None;
    } else {
      assert [exact][..0] == [];
    }
  }

  // ---------------------------------------------------------------- the GUI's prices

  /** The price fields tried, in order. */
  const PriceFields := ["usd", "usd_foil", "eur", "eur_foil"]

  /** `price_type in prices and prices[price_type]`: present, not null and
      not the empty string. */
  predicate Populated(prices: map<string, Option<string>>, field: string) {
    field in prices && prices[field].Some? && prices[field].value != ""
  }

  /** fields[i] is the first populated field. */
  predicate FirstPopulatedAt(prices: map<string, Option<string>>, fields: seq<string>, i: int) {
    && 0 <= i < |fields| && Populated(prices, fields[i])
    && forall j :: 0 <= j < i ==> !Populated(prices, fields[j])
  }

  /** The text of the first populated field. */
  function FirstPopulated(prices: map<string, Option<string>>, fields: seq<string>): (r: Option<string>)
    ensures r.None? <==> forall i :: 0 <= i < |fields| ==> !Populated(prices, fields[i])
    ensures r.Some? ==> exists i :: FirstPopulatedAt(prices, fields, i) && r.value == prices[fields[i]].value
    decreases |fields|
  {
    if fields == [] then None
    else if Populated(prices, fields[0]) then
      assert FirstPopulatedAt(prices, fields, 0);
      Some(prices[fields[0]].value)
    else
      var r := FirstPopulated(prices, fields[1..]);
      if r.Some? then
        var i :| FirstPopulatedAt(prices, fields[1..], i) && r.value == prices[fields[1..][i]].value;
        assert FirstPopulatedAt(prices, fields, i + 1);
        r
      else
        assert forall i :: 1 <= i < |fields| ==> fields[i] == fields[1..][i - 1];
        r
  }

  /** extract_price_from_data: the first populated field, parsed. `parse`
      turns a price text into cents (None when float() would raise); a
      field that does not parse ends the search with None, it does not
      fall through to the next field. */
  function ExtractPrice(d: CardData, parse: string -> Option<int>): Option<int> {
    var text := FirstPopulated(d.prices, PriceFields);
    if text.Some? then parse(text.value) else None
  }

  /** Only one field can be the first populated one. */
  lemma FirstPopulatedIs(prices: map<string, Option<string>>, fields: seq<string>, i: int)
    requires FirstPopulatedAt(prices, fields, i)
    ensures FirstPopulated(prices, fields) == Some(prices[fields[i]].value)
  {
    var r := FirstPopulated(prices, fields);
    var k :| FirstPopulatedAt(prices, fields, k) && r.value == prices[fields[k]].value;
  }

  /** usd wins whenever it is populated; eur_foil is used only when the
      three before it are all missing. */
  lemma ExtractPricePrefersUsd(d: CardData, parse: string -> Option<int>)
    ensures Populated(d.prices, "usd") ==> ExtractPrice(d, parse) == parse(d.prices["usd"].value)
    ensures !Populated(d.prices, "usd") && !Populated(d.prices, "usd_foil") && !Populated(d.prices, "eur") ==>
      ExtractPrice(d, parse) == (if Populated(d.prices, "eur_foil") then parse(d.prices["eur_foil"].value) else None)
  {
    var fields := PriceFields;
    assert fields[0] == "usd" && fields[1] == "usd_foil" && fields[2] == "eur" && fields[3] == "eur_foil";
    if Populated(d.prices, "usd") {
      FirstPopulatedIs(d.prices, fields, 0);
    }
    if !Populated(d.prices, "usd") && !Populated(d.prices, "usd_foil") && !Populated(d.prices, "eur") {
      if Populated(d.prices, "eur_foil") {
        FirstPopulatedIs(d.prices, fields, 3);
      } else {
        assert forall i :: 0 <= i < |fields| ==> !Populated(d.prices, fields[i]);
      }
    }
  }

  /** A price Python treats as true: present and not zero. */
  predicate Truthy(price: Option<int>) { price.Some? && price.value != 0 }

  /** The guard on the print lookup: set code (lower-cased) and collector
      number non-empty and not 'n/a'. The number is compared as it is, so
      "N/A" passes. */
  predicate PrintLookupAllowed(setCode: string, number: string) {
    var s := Lower(setCode);
    s != [] && number != [] && s != "n/a" && number != "n/a"
  }

  /** The guard on the name lookups. */
  predicate NameLookupAllowed(name: string) { name != [] && name != "N/A" }

  /** The price found by the print lookup alone. */
  function PrintPrice(setCode: string, number: string, service: Query -> Option<CardData>, parse: string -> Option<int>): Option<int> {
    var exact := ByPrint(Lower(setCode), number);
    if PrintLookupAllowed(setCode, number) && service(exact).Some? then ExtractPrice(service(exact).value, parse)
    else None
  }

  /** The lookup part of fetch_card_price: the price and the queries made. */
  function PriceLookup(setCode: string, number: string, name: string,
                       service: Query -> Option<CardData>, parse: string -> Option<int>): (Option<int>, seq<Query>)
  {
    var exact := ByPrint(Lower(setCode), number);
    var first := PrintPrice(setCode, number, service, parse);
    var asked := if PrintLookupAllowed(setCode, number) then [exact] else [];
    if Truthy(first) || !NameLookupAllowed(name) then (first, asked)
    else
      var fuzzy := ByName(name);
      if service(fuzzy).Some? then (ExtractPrice(service(fuzzy).value, parse), asked + [fuzzy])
      else (first, asked + [fuzzy])
  }

  /** The print lookup runs exactly when its guard holds, the name lookup
      exactly when its guard holds and the print lookup produced no usable
      price, and the price is what the last answering lookup reported. */
  lemma PriceLookupSpec(setCode: string, number: string, name: string,
                        service: Query -> Option<CardData>, parse: string -> Option<int>)
    ensures var (price, asked) := PriceLookup(setCode, number, name, service, parse);
      && (ByPrint(Lower(setCode), number) in asked <==> PrintLookupAllowed(setCode, number))
      && (ByName(name) in asked <==>
            NameLookupAllowed(name) && !Truthy(PrintPrice(setCode, number, service, parse)))
      && |asked| <= 2
      && price == (if LastAnswer(asked, service).Some? then ExtractPrice(LastAnswer(asked, service).value, parse) else None)
  {
    var exact := ByPrint(Lower(setCode), number);
    var fuzzy := ByName(name);
    var (price, asked) := PriceLookup(setCode, number, name, service, parse);
    var first := if PrintLookupAllowed(setCode, number) then [exact] else [];
    assert LastAnswer(first, service) == (if first != [] && service(exact).Some? then service(exact) else None) by {
      if first != [] { assert first[..0] == []; }
    }
    if asked != first {
      assert asked == first + [fuzzy];
      assert asked[..|asked| - 1] == first;
    }
  }

  // ---------------------------------------------------------------- the GUI's images

  /** An image URL Python treats as true. */
  predicate UrlFound(url: Option<string>) { url.Some? && url.value != "" }

  /** The URL an answer gives: image_uris.normal, or "" without one. */
  function UrlOf(answer: Option<CardData>, before: Option<string>): Option<string> {
    if answer.Some? then Some(NormalOr(answer.value, "")) else before
  }

  /** One lookup of load_card_image: made only while no URL has been found
      and its guard holds; an answer replaces the URL found so far. */
  function UrlStep(before: (Option<string>, seq<Query>), guard: bool, q: Query,
                   service: Query -> Option<CardData>): (Option<string>, seq<Query>)
  {
    if !UrlFound(before.0) && guard then (UrlOf(service(q), before.0), before.1 + [q]) else before
  }

  /** The lookup part of load_card_image: print, then name, then search,
      each tried only while no URL has been found and its guard holds. */
  function ImageUrlLookup(setCode: string, number: string, name: string,
                          service: Query -> Option<CardData>): (Option<string>, seq<Query>)
  {
    var s := Lower(setCode);
    var first := UrlStep((None, []), PrintLookupAllowed(setCode, number), ByPrint(s, number), service);
    var second := UrlStep(first, NameLookupAllowed(name), ByName(name), service);
    UrlStep(second, s != [] && s != "n/a" && NameLookupAllowed(name), Search(name, s), service)
  }

  /** Each later lookup is made only when everything asked before it
      answered with no usable URL, and the URL is the one the last
      answering lookup gave. */
  lemma ImageUrlLookupSpec(setCode: string, number: string, name: string, service: Query -> Option<CardData>)
    ensures var (url, asked) := ImageUrlLookup(setCode, number, name, service);
      && |asked| <= 3
      && (ByPrint(Lower(setCode), number) in asked <==> PrintLookupAllowed(setCode, number))
      && (forall i :: 0 <= i < |asked| - 1 ==> !UrlFound(UrlOf(service(asked[i]), None)))
      && (forall i :: 0 <= i < |asked| ==> asked[i].ByName? || asked[i].Search? ==> NameLookupAllowed(name))
      && url == (if LastAnswer(asked, service).Some? then Some(NormalOr(LastAnswer(asked, service).value, "")) else None)
  {
    ImageUrlQueries(setCode, number, name, service);
    ImageUrlAnswer(setCode, number, name, service);
  }

  /** Which lookups ImageUrlLookup makes: the print lookup whenever set and
      number are usable; the name lookup exactly when the name is usable
      and the print lookup left no URL; the search exactly when the name
      and the lowered set code are usable and neither earlier lookup left
      a URL; and never anything else, in that order. */
  lemma ImageUrlQueries(setCode: string, number: string, name: string, service: Query -> Option<CardData>)
    ensures var (url, asked) := ImageUrlLookup(setCode, number, name, service);
      var s := Lower(setCode);
      var printUrl := if PrintLookupAllowed(setCode, number) then UrlOf(service(ByPrint(s, number)), None) else None;
      var nameUrl := if ByName(name) in asked then UrlOf(service(ByName(name)), printUrl) else printUrl;
      && (ByPrint(s, number) in asked <==> PrintLookupAllowed(setCode, number))
      && (ByName(name) in asked <==> NameLookupAllowed(name) && !UrlFound(printUrl))
      && (Search(name, s) in asked <==>
            s != [] && s != "n/a" && NameLookupAllowed(name) && !UrlFound(nameUrl))
      && asked == (if ByPrint(s, number) in asked then [ByPrint(s, number)] else [])
                  + (if ByName(name) in asked then [ByName(name)] else [])
                  + (if Search(name, s) in asked then [Search(name, s)] else [])
      && (forall i :: 0 <= i < |asked| ==> asked[i].ByName? || asked[i].Search? ==> NameLookupAllowed(name))
  {
  }

  /** What ImageUrlLookup's answer is. */
  lemma ImageUrlAnswer(setCode: string, number: string, name: string, service: Query -> Option<CardData>)
    ensures var (url, asked) := ImageUrlLookup(setCode, number, name, service);
      && (forall i :: 0 <= i < |asked| - 1 ==> !UrlFound(UrlOf(service(asked[i]), None)))
      && url == (if LastAnswer(asked, service).Some? then Some(NormalOr(LastAnswer(asked, service).value, "")) else None)
  {
    var s := Lower(setCode);
    var start: (Option<string>, seq<Query>) := (None, []);
    var first := UrlStep(start, PrintLookupAllowed(setCode, number), ByPrint(s, number), service);
    var second := UrlStep(first, NameLookupAllowed(name), ByName(name), service);
    UrlStepKeeps(start, PrintLookupAllowed(setCode, number), ByPrint(s, number), service);
    UrlStepKeeps(first, NameLookupAllowed(name), ByName(name), service);
    UrlStepKeeps(second, s != [] && s != "n/a" && NameLookupAllowed(name), Search(name, s), service);
  }

  /** The lookups so far: every one but the last gave no usable URL, and
      the URL is the one the last answering lookup gave. */
  predicate ChainSoFar(r: (Option<string>, seq<Query>), service: Query -> Option<CardData>) {
    && (forall i :: 0 <= i < |r.1| - 1 ==> !UrlFound(UrlOf(service(r.1[i]), None)))
    && r.0 == (if LastAnswer(r.1, service).Some? then Some(NormalOr(LastAnswer(r.1, service).value, "")) else None)
  }

  lemma UrlStepKeeps(r: (Option<string>, seq<Query>), guard: bool, q: Query, service: Query -> Option<CardData>)
    requires ChainSoFar(r, service)
    ensures ChainSoFar(UrlStep(r, guard, q, service), service)
  {
    if !UrlFound(r.0) && guard {
      var asked := r.1 + [q];
      assert asked[..|asked| - 1] == r.1;
      if r.1 != [] {
        var last := r.1[|r.1| - 1];
        assert !UrlFound(UrlOf(service(last), None));
      }
      forall i | 0 <= i < |asked| - 1 ensures !UrlFound(UrlOf(service(asked[i]), None)) {
        assert asked[i] == r.1[i];
      }
    }
  }
}
