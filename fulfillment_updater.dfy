/** quick_fulfillment_updater.py: the seller's open orders fetched page by
    page, the operator's choice of a new status and of the orders to give
    it, and one fulfilment update per chosen order, in ascending order.
    The marketplace is an oracle: the listing is a fixed sequence of orders
    with the offsets whose request raises, and the update endpoint is a
    function from request to HTTP status. The console is the sequence of
    lines the operator types. */
module FulfillmentUpdater {
  import opened Wrappers
  import opened Text
  import opened Ordering

  // ---------------------------------------------------------------- fetching

  /** limit=100 of the listing request. */
  const PageSize: nat := 100

  /** An order's label as the JSON gives it: a string, or any other value
      (a number, true or false, null, a list, an object). */
  datatype Label = TextLabel(text: string) | OtherLabel

  /** An order as the listing returns it; a key the JSON lacks is None.
      For total_cents, None also stands for a value `/ 100` rejects. */
  datatype RawOrder = RawOrder(id: Option<string>, orderLabel: Option<Label>, totalCents: Option<int>, status: Option<string>)

  /** The fields the script keeps of an open order (the total in cents). */
  datatype Order = Order(id: string, orderLabel: Label, totalCents: int, status: string)

  /** The listing endpoint: every order of the seller in listing order, and
      the offsets whose request raises (connection error, error status,
      undecodable body). */
  datatype Server = Server(rows: seq<RawOrder>, failing: set<nat>)

  /** The batch the listing returns at an offset. */
  function Page(rows: seq<RawOrder>, offset: nat): (batch: seq<RawOrder>)
    ensures |batch| <= PageSize
    ensures batch == [] <==> offset >= |rows|
    ensures batch != [] ==> offset + |batch| <= |rows| && batch == rows[offset..offset + |batch|]
    ensures |batch| < PageSize && batch != [] ==> offset + |batch| == |rows|
  {
    if offset >= |rows| then []
    else if |rows| - offset < PageSize then rows[offset..]
    else rows[offset..offset + PageSize]
  }

  /** status in (None, '', 'processing', 'unfulfilled') */
  predicate Open(o: RawOrder) {
    o.status.None? || o.status.value in {"", "processing", "unfulfilled"}
  }

  /** The record appended for an open order, or None where reading one of
      its fields raises. The stored status is `status or 'unfulfilled'`. */
  function Record(o: RawOrder): Option<Order> {
    if o.id.None? || o.orderLabel.None? || o.totalCents.None? then None
    else
      var status := if o.status.None? || o.status.value == "" then "unfulfilled" else o.status.value;
      Some(Order(o.id.value, o.orderLabel.value, o.totalCents.value, status))
  }

  /** The records the loop over one batch appends, or None where it raises. */
  function Keep(batch: seq<RawOrder>): Option<seq<Order>>
    decreases |batch|
  {
    if batch == [] then Some([])
    else if !Open(batch[0]) then Keep(batch[1..])
    else
      match (Record(batch[0]), Keep(batch[1..]))
      case (Some(o), Some(rest)) => Some([o] + rest)
      case _ => None
  }

  /** Every open order of the batch has the fields the script reads. */
  predicate Readable(batch: seq<RawOrder>) {
    forall i :: 0 <= i < |batch| && Open(batch[i]) ==> Record(batch[i]).Some?
  }

  /** Keeping raises exactly when an open order lacks a field. */
  lemma {:induction false} KeepReadable(batch: seq<RawOrder>)
    ensures Keep(batch).Some? <==> Readable(batch)
    decreases |batch|
  {
    if batch != [] {
      var rest := batch[1..];
      KeepReadable(rest);
      assert Readable(batch) <==> (Open(batch[0]) ==> Record(batch[0]).Some?) && Readable(rest) by {
        if Readable(batch) {
          forall i | 0 <= i < |rest| && Open(rest[i]) ensures Record(rest[i]).Some? {
            assert rest[i] == batch[i + 1];
          }
        }
        if (Open(batch[0]) ==> Record(batch[0]).Some?) && Readable(rest) {
          forall i | 0 <= i < |batch| && Open(batch[i]) ensures Record(batch[i]).Some? {
            if i > 0 { assert batch[i] == rest[i - 1]; }
          }
        }
      }
    }
  }

  /** When it does not raise, keeping records the open orders, in batch
      order, and nothing else. */
  lemma {:induction false} KeepRecords(batch: seq<RawOrder>)
    requires Keep(batch).Some?
    ensures var open := Filter(batch, Open);
      && |Keep(batch).value| == |open|
      && forall k :: 0 <= k < |open| ==> Record(open[k]) == Some(Keep(batch).value[k])
    decreases |batch|
  {
    if batch != [] {
      var rest := batch[1..];
      var open, openRest := Filter(batch, Open), Filter(rest, Open);
      assert Keep(rest).Some?;
      KeepRecords(rest);
      if Open(batch[0]) {
        assert open == [batch[0]] + openRest;
        var kept := Keep(batch).value;
        assert kept == [Record(batch[0]).value] + Keep(rest).value;
        forall k | 0 <= k < |open| ensures Record(open[k]) == Some(kept[k]) {
          if k > 0 {
            assert open[k] == openRest[k - 1] && kept[k] == Keep(rest).value[k - 1];
          }
        }
      } else {
        assert open == openRest && Keep(batch) == Keep(rest);
      }
    }
  }

  /** Prefix a batch's records to what a later stage yields. */
  function Then(kept: seq<Order>, later: Option<seq<Order>>): Option<seq<Order>> {
    match later
    case None => None
    case Some(more) => Some(kept + more)
  }

  /** Keeping two batches in a row is keeping their concatenation. */
  lemma {:induction false} KeepConcat(a: seq<RawOrder>, b: seq<RawOrder>)
    ensures Keep(a + b) == if Keep(a).None? then None else Then(Keep(a).value, Keep(b))
    decreases |a|
  {
    if a == [] {
      assert a + b == b;
      if Keep(b).Some? {
        assert [] + Keep(b).value == Keep(b).value;
      }
    } else {
      assert (a + b)[0] == a[0] && (a + b)[1..] == a[1..] + b;
      KeepConcat(a[1..], b);
      if Keep(a).Some? && Open(a[0]) && Keep(b).Some? {
        assert [Record(a[0]).value] + (Keep(a[1..]).value + Keep(b).value)
          == ([Record(a[0]).value] + Keep(a[1..]).value) + Keep(b).value;
      }
    }
  }

  /** One turn of the loop over a batch, against Keep. */
  lemma KeepStep(batch: seq<RawOrder>, i: nat, added: seq<Order>)
    requires i < |batch|
    ensures !Open(batch[i]) ==> Then(added, Keep(batch[i..])) == Then(added, Keep(batch[i + 1..]))
    ensures Open(batch[i]) && Record(batch[i]).None? ==> Keep(batch[i..]).None?
    ensures Open(batch[i]) && Record(batch[i]).Some? ==>
      Then(added, Keep(batch[i..])) == Then(added + [Record(batch[i]).value], Keep(batch[i + 1..]))
  {
    assert batch[i..][0] == batch[i] && batch[i..][1..] == batch[i + 1..];
    var later := Keep(batch[i + 1..]);
    if Open(batch[i]) && Record(batch[i]).Some? && later.Some? {
      assert added + ([Record(batch[i]).value] + later.value) == (added + [Record(batch[i]).value]) + later.value;
    }
  }

  /** The loop over one batch: the record of each open order, in batch
      order, or None at the first open order that lacks a field. */
  method KeepPage(batch: seq<RawOrder>) returns (kept: Option<seq<Order>>)
    ensures kept == Keep(batch)
  {
    var added: seq<Order> := [];
    assert batch[0..] == batch;
    if Keep(batch).Some? {
      assert [] + Keep(batch).value == Keep(batch).value;
    }
    for i := 0 to |batch|
      invariant Keep(batch) == Then(added, Keep(batch[i..]))
    {
      KeepStep(batch, i, added);
      var order := batch[i];
      if Open(order) {
        var record := Record(order);
        if record.None? {
          return None;
        }
        added := added + [record.value];
      }
    }
    assert batch[|batch|..] == [] && added + [] == added;
    return Some(added);
  }

  /** The outcome of a run of get_unfulfilled_orders: the records kept, or
      an abort (sys.exit). */
  datatype Fetch = Fetched(orders: seq<Order>) | Aborted

  function Prefixed(kept: seq<Order>, later: Fetch): Fetch {
    match later
    case Aborted => Aborted
    case Fetched(more) => Fetched(kept + more)
  }

  /** One turn of the pagination loop: the fetch ends there (a failing
      request, an empty page, an open order that lacks a field, a short
      page), or the page's records are kept and the loop goes on at the
      next offset. */
  datatype PageStep = Ended(outcome: Fetch) | Continued(kept: seq<Order>)

  /** The turn at one offset: the request, then the loop over its batch. */
  function Turn(server: Server, offset: nat): (step: PageStep)
    ensures step.Continued? ==> offset + PageSize <= |server.rows|
  {
    if offset in server.failing then Ended(Aborted)
    else
      var batch := Page(server.rows, offset);
      if batch == [] then Ended(Fetched([]))
      else
        match Keep(batch)
        case None => Ended(Aborted)
        case Some(kept) => if |batch| < PageSize then Ended(Fetched(kept)) else Continued(kept)
  }

  /** What the pagination loop yields from one offset on, and the offsets it
      requests: a failing request or an unreadable open order aborts, an
      empty or short batch is the last. */
  function FetchFrom(server: Server, offset: nat): (Fetch, seq<nat>)
    decreases |server.rows| - offset
  {
    match Turn(server, offset)
    case Ended(outcome) => (outcome, [offset])
    case Continued(kept) =>
      var later := FetchFrom(server, offset + PageSize);
      (Prefixed(kept, later.0), [offset] + later.1)
  }

  /** get_unfulfilled_orders: no request at all without credentials. */
  function FetchAll(email: string, token: string, server: Server): (Fetch, seq<nat>) {
    if email == "" || token == "" then (Aborted, []) else FetchFrom(server, 0)
  }

  /** The request at one offset and the loop over its batch. */
  method FetchPage(server: Server, offset: nat) returns (step: PageStep)
    ensures step == Turn(server, offset)
  {
    if offset in server.failing {
      return Ended(Aborted);
    }
    var batch := Page(server.rows, offset);
    if batch == [] {
      return Ended(Fetched([]));
    }
    var kept := KeepPage(batch);
    if kept.None? {
      return Ended(Aborted);
    }
    if |batch| < PageSize {
      return Ended(Fetched(kept.value));
    }
    return Continued(kept.value);
  }

  /** get_unfulfilled_orders, the loop over offsets 0, 100, 200, ... */
  method GetUnfulfilledOrders(email: string, token: string, server: Server) returns (outcome: Fetch, requested: seq<nat>)
    ensures (outcome, requested) == FetchAll(email, token, server)
  {
    if email == "" || token == "" {
      return Aborted, [];
    }
    var orders: seq<Order> := [];
    var offset: nat := 0;
    requested := [];
    while true
      invariant Prefixed(orders, FetchFrom(server, offset).0) == FetchFrom(server, 0).0
      invariant requested + FetchFrom(server, offset).1 == FetchFrom(server, 0).1
      decreases |server.rows| - offset
    {
      var step := FetchPage(server, offset);
      requested := requested + [offset];
      if step.Ended? {
        return Prefixed(orders, step.outcome), requested;
      }
      ContinuedStep(orders, step.kept, requested, offset, FetchFrom(server, offset + PageSize));
      orders := orders + step.kept;
      offset := offset + PageSize;
    }
  }

  /** Carrying a page's records and request into the loop's state. */
  lemma ContinuedStep(orders: seq<Order>, kept: seq<Order>, requested: seq<nat>, offset: nat, next: (Fetch, seq<nat>))
    ensures Prefixed(orders + kept, next.0) == Prefixed(orders, Prefixed(kept, next.0))
    ensures (requested + [offset]) + next.1 == requested + ([offset] + next.1)
  {
    if next.0.Fetched? {
      assert (orders + kept) + next.0.orders == orders + (kept + next.0.orders);
    }
  }

  /** The offsets 0, 100, ..., requested when nothing goes wrong. */
  function Offsets(from: nat, count: nat): seq<nat> {
    seq(count, k => (from + k) * PageSize)
  }

  lemma OffsetsCons(from: nat, count: nat)
    requires count > 0
    ensures Offsets(from, count) == [from * PageSize] + Offsets(from + 1, count - 1)
  {
    var a, b := Offsets(from, count), [from * PageSize] + Offsets(from + 1, count - 1);
    forall k | 0 <= k < count ensures a[k] == b[k] {
      if k > 0 {
        assert b[k] == Offsets(from + 1, count - 1)[k - 1] == (from + 1 + (k - 1)) * PageSize;
      }
    }
  }

  /** From page j on, no requested offset fails and every open order is
      readable. */
  predicate CleanFrom(server: Server, j: nat)
    requires j * PageSize <= |server.rows|
  {
    && (forall k :: j <= k <= |server.rows| / PageSize ==> k * PageSize !in server.failing)
    && Readable(server.rows[j * PageSize..])
  }

  lemma ReadableSplit(a: seq<RawOrder>, b: seq<RawOrder>)
    ensures Readable(a + b) <==> Readable(a) && Readable(b)
  {
    var s := a + b;
    if Readable(a) && Readable(b) {
      forall i | 0 <= i < |s| && Open(s[i]) ensures Record(s[i]).Some? {
        if i >= |a| { assert s[i] == b[i - |a|]; }
      }
    }
    if Readable(s) {
      forall i | 0 <= i < |a| && Open(a[i]) ensures Record(a[i]).Some? {
        assert a[i] == s[i];
      }
      forall i | 0 <= i < |b| && Open(b[i]) ensures Record(b[i]).Some? {
        assert b[i] == s[i + |a|];
      }
    }
  }

  /** Page j and what follows it, as sequences. */
  lemma PageSplit(rows: seq<RawOrder>, j: nat)
    requires (j + 1) * PageSize <= |rows|
    ensures rows[j * PageSize..] == Page(rows, j * PageSize) + rows[(j + 1) * PageSize..]
  {
  }

  /** A clean listing from page j on is fetched whole: one request per
      page up to the first short (or empty) one. */
  lemma {:induction false} FetchFromClean(server: Server, j: nat)
    requires j * PageSize <= |server.rows|
    requires CleanFrom(server, j)
    ensures j <= |server.rows| / PageSize
    ensures var rest := server.rows[j * PageSize..];
      && Keep(rest).Some?
      && FetchFrom(server, j * PageSize) == (Fetched(Keep(rest).value), Offsets(j, |server.rows| / PageSize + 1 - j))
    decreases |server.rows| - j * PageSize
  {
    var rows := server.rows;
    var o := j * PageSize;
    if |rows| - o < PageSize {
      var rest := rows[o..];
      KeepReadable(rest);
      assert |rows| / PageSize == j;
      assert Page(rows, o) == rest;
      assert Offsets(j, 1) == [o];
    } else {
      CleanNext(server, j);
      FetchFromClean(server, j + 1);
      CleanStep(server, j);
    }
  }

  /** A clean listing is clean from the next page on, and its page is
      readable. */
  lemma CleanNext(server: Server, j: nat)
    requires (j + 1) * PageSize <= |server.rows|
    requires CleanFrom(server, j)
    ensures CleanFrom(server, j + 1) && Readable(Page(server.rows, j * PageSize))
  {
    PageSplit(server.rows, j);
    ReadableSplit(Page(server.rows, j * PageSize), server.rows[(j + 1) * PageSize..]);
  }

  /** A full, readable page at a request that does not fail, followed by a
      whole fetch, is a whole fetch. */
  lemma CleanStep(server: Server, j: nat)
    requires (j + 1) * PageSize <= |server.rows|
    requires j * PageSize !in server.failing && Readable(Page(server.rows, j * PageSize))
    requires var later := server.rows[(j + 1) * PageSize..];
      && Keep(later).Some?
      && FetchFrom(server, (j + 1) * PageSize) == (Fetched(Keep(later).value), Offsets(j + 1, |server.rows| / PageSize - j))
    ensures var rest := server.rows[j * PageSize..];
      && Keep(rest).Some?
      && FetchFrom(server, j * PageSize) == (Fetched(Keep(rest).value), Offsets(j, |server.rows| / PageSize + 1 - j))
  {
    var batch := Page(server.rows, j * PageSize);
    PageSplit(server.rows, j);
    KeepReadable(batch);
    KeepConcat(batch, server.rows[(j + 1) * PageSize..]);
    OffsetsCons(j, |server.rows| / PageSize + 1 - j);
  }

  /** Only a clean listing is fetched without an abort. */
  lemma {:induction false} FetchedIsClean(server: Server, j: nat)
    requires j * PageSize <= |server.rows|
    requires FetchFrom(server, j * PageSize).0.Fetched?
    ensures CleanFrom(server, j)
    decreases |server.rows| - j * PageSize
  {
    var rows := server.rows;
    var o := j * PageSize;
    var rest := rows[o..];
    var batch := Page(rows, o);
    KeepReadable(batch);
    if |rows| - o < PageSize {
      assert |rows| / PageSize == j;
      assert batch == rest;
    } else {
      PageSplit(rows, j);
      var later := rows[(j + 1) * PageSize..];
      FetchedIsClean(server, j + 1);
      ReadableSplit(batch, later);
    }
  }

  /** The fetch as a whole: it aborts without credentials (and then
      requests nothing), at a failing request, or at an open order that
      lacks a field. Otherwise it requests offsets 0, 100, ... up to the
      first short or empty page and keeps exactly the open orders, in
      listing order. */
  lemma FetchAllMeaning(email: string, token: string, server: Server)
    ensures (email == "" || token == "") ==> FetchAll(email, token, server) == (Aborted, [])
    ensures FetchAll(email, token, server).0.Fetched? <==> email != "" && token != "" && CleanFrom(server, 0)
    ensures FetchAll(email, token, server).0.Fetched? ==>
      && Keep(server.rows).Some?
      && FetchAll(email, token, server) == (Fetched(Keep(server.rows).value), Offsets(0, |server.rows| / PageSize + 1))
  {
    if email != "" && token != "" {
      assert server.rows[0 * PageSize..] == server.rows;
      if CleanFrom(server, 0) {
        FetchFromClean(server, 0);
      }
      if FetchFrom(server, 0).0.Fetched? {
        FetchedIsClean(server, 0);
      }
    }
  }

  /** 101 orders take two requests, and so do 100: a full page is always
      followed by another request. */
  lemma RequestsPerPage(server: Server)
    requires FetchFrom(server, 0).0.Fetched?
    ensures |server.rows| == 100 || |server.rows| == 101 ==> |FetchFrom(server, 0).1| == 2
    ensures |server.rows| < 100 ==> FetchFrom(server, 0).1 == [0]
  {
    assert server.rows[0 * PageSize..] == server.rows;
    FetchedIsClean(server, 0);
    FetchFromClean(server, 0);
  }

  // ---------------------------------------------------------------- selection

  /** What one space-separated part of the order-number answer adds, or
      why the run stops there: a part with more than one '-' raises when
      unpacked, outside the try. */
  datatype Part = Numbers(numbers: set<int>) | BadRange | BadNumber | Unpacking

  /** range(a, b) as a set. */
  function Range(a: int, b: int): set<int>
    decreases b - a
  {
    if a >= b then {} else {a} + Range(a + 1, b)
  }

  /** range(a, b) holds exactly the integers from a up to, not including, b. */
  lemma {:induction false} RangeMembers(a: int, b: int)
    ensures forall x :: x in Range(a, b) <==> a <= x < b
    decreases b - a
  {
    if a < b {
      RangeMembers(a + 1, b);
    }
  }

  function ParsePart(part: string): Part {
    if '-' in part then
      var pieces := SplitOn(part, '-');
      if |pieces| != 2 then Unpacking
      else
        match (ParseInt(pieces[0]), ParseInt(pieces[1]))
        case (Some(a), Some(b)) => Numbers(Range(a, b + 1))
        case _ => BadRange
    else
      match ParseInt(part)
      case Some(v) => Numbers({v})
      case None => BadNumber
  }

  /** The numbers chosen, or the part that stopped the run and how. */
  datatype Selection = Chosen(numbers: set<int>) | InvalidRange(part: string) | InvalidNumber(part: string) | Unpackable(part: string)

  /** How a part that adds no numbers ends the selection. */
  function Refusal(p: Part, part: string): Selection
    requires !p.Numbers?
  {
    match p
    case BadRange => InvalidRange(part)
    case BadNumber => InvalidNumber(part)
    case Unpacking => Unpackable(part)
  }

  /** The selection loop from a given part on. */
  function SelectParts(parts: seq<string>): Selection
    decreases |parts|
  {
    if parts == [] then Chosen({})
    else
      var p := ParsePart(parts[0]);
      if !p.Numbers? then Refusal(p, parts[0])
      else
        match SelectParts(parts[1..])
        case Chosen(more) => Chosen(p.numbers + more)
        case refused => refused
  }

  /** The order-number answer, already stripped and lower-cased. */
  function ParseChoice(choice: string, n: nat): Selection {
    if choice == "all" then Chosen(Range(1, n + 1)) else SelectParts(Words(choice))
  }

  function Extended(selected: set<int>, later: Selection): Selection {
    match later
    case Chosen(more) => Chosen(selected + more)
    case refused => refused
  }

  /** The selection loop: each part adds its number or range to `selected`;
      the first part that does not parse ends it. */
  method ReadSelection(choice: string, n: nat) returns (selection: Selection)
    ensures selection == ParseChoice(choice, n)
  {
    if choice == "all" {
      return Chosen(Range(1, n + 1));
    }
    var selected: set<int> := {};
    var parts := Words(choice);
    for i := 0 to |parts|
      invariant Extended(selected, SelectParts(parts[i..])) == SelectParts(parts)
    {
      SelectStep(parts, i, selected);
      var p := ParsePart(parts[i]);
      if !p.Numbers? {
        return Refusal(p, parts[i]);
      }
      selected := selected + p.numbers;
    }
    assert parts[|parts|..] == [];
    return Chosen(selected);
  }

  /** One turn of the selection loop, against the selection it computes. */
  lemma SelectStep(parts: seq<string>, i: int, selected: set<int>)
    requires 0 <= i < |parts|
    requires Extended(selected, SelectParts(parts[i..])) == SelectParts(parts)
    ensures var p := ParsePart(parts[i]);
      && (p.Numbers? ==> Extended(selected + p.numbers, SelectParts(parts[i + 1..])) == SelectParts(parts))
      && (!p.Numbers? ==> SelectParts(parts) == Refusal(p, parts[i]))
  {
    assert parts[i..][0] == parts[i] && parts[i..][1..] == parts[i + 1..];
    var p := ParsePart(parts[i]);
    var later := SelectParts(parts[i + 1..]);
    if p.Numbers? && later.Chosen? {
      assert selected + (p.numbers + later.numbers) == (selected + p.numbers) + later.numbers;
    }
  }

  /** The selection succeeds exactly when every part parses. */
  lemma {:induction false} SelectPartsChosen(parts: seq<string>)
    ensures SelectParts(parts).Chosen? <==> forall i :: 0 <= i < |parts| ==> ParsePart(parts[i]).Numbers?
    decreases |parts|
  {
    if parts != [] {
      var rest := parts[1..];
      SelectPartsChosen(rest);
      assert forall i :: 0 < i < |parts| ==> parts[i] == rest[i - 1];
    }
  }

  /** A successful selection holds exactly the numbers the parts name. */
  lemma {:induction false} SelectedNumbers(parts: seq<string>)
    requires SelectParts(parts).Chosen?
    ensures forall x :: x in SelectParts(parts).numbers <==> exists i :: 0 <= i < |parts| && Names(parts[i], x)
    decreases |parts|
  {
    if parts != [] {
      var rest := parts[1..];
      var p := ParsePart(parts[0]);
      var later := SelectParts(rest);
      assert p.Numbers? && later.Chosen? && SelectParts(parts).numbers == p.numbers + later.numbers;
      SelectedNumbers(rest);
      forall x ensures x in SelectParts(parts).numbers <==> exists i :: 0 <= i < |parts| && Names(parts[i], x) {
        if x in p.numbers {
          assert Names(parts[0], x);
        } else if x in later.numbers {
          var i :| 0 <= i < |rest| && Names(rest[i], x);
          assert parts[i + 1] == rest[i];
        }
        if exists i :: 0 <= i < |parts| && Names(parts[i], x) {
          var i :| 0 <= i < |parts| && Names(parts[i], x);
          if i > 0 {
            assert rest[i - 1] == parts[i];
          }
        }
      }
    }
  }

  /** The part parses to numbers among which is x. */
  predicate Names(part: string, x: int) {
    ParsePart(part).Numbers? && x in ParsePart(part).numbers
  }

  /** A failed selection names the first part that does not parse, and
      says how it failed. */
  lemma {:induction false} SelectPartsRefused(parts: seq<string>) returns (i: nat)
    requires !SelectParts(parts).Chosen?
    ensures i < |parts|
    ensures forall j :: 0 <= j < i ==> ParsePart(parts[j]).Numbers?
    ensures !ParsePart(parts[i]).Numbers? && SelectParts(parts) == Refusal(ParsePart(parts[i]), parts[i])
    decreases |parts|
  {
    if ParsePart(parts[0]).Numbers? {
      var k := SelectPartsRefused(parts[1..]);
      i := k + 1;
      assert forall j :: 0 < j < |parts| ==> parts[j] == parts[1..][j - 1];
    } else {
      i := 0;
    }
  }

  /** A decimal number selects itself. */
  lemma NumberPart(a: nat)
    ensures ParsePart(NatToString(a)) == Numbers({a})
  {
    var s := NatToString(a);
    NoHyphen(s);
    ParseIntOfIntToString(a);
    assert IntToString(a) == s;
  }

  /** "a-b" selects a through b inclusive, nothing when a > b. */
  lemma RangePart(a: nat, b: nat)
    ensures ParsePart(NatToString(a) + "-" + NatToString(b)) == Numbers(Range(a, b + 1))
    ensures a > b ==> Range(a, b + 1) == {}
  {
    var x, y := NatToString(a), NatToString(b);
    var s := x + "-" + y;
    assert s[|x|] == '-';
    SplitOfRange(x, y);
    ParseIntOfIntToString(a);
    ParseIntOfIntToString(b);
    assert IntToString(a) == x && IntToString(b) == y;
    PairPart(s, x, y, a, b);
    RangeMembers(a, b + 1);
  }

  lemma PairPart(s: string, x: string, y: string, a: int, b: int)
    requires '-' in s && SplitOn(s, '-') == [x, y]
    requires ParseInt(x) == Some(a) && ParseInt(y) == Some(b)
    ensures ParsePart(s) == Numbers(Range(a, b + 1))
  {
  }

  /** Splitting "x-y" at '-' for hyphen-free x and y. */
  lemma SplitOfRange(x: string, y: string)
    requires AllDigits(x) && AllDigits(y)
    ensures SplitOn(x + "-" + y, '-') == [x, y]
  {
    NoHyphen(x);
    NoHyphen(y);
    SplitOnJoin(x, y);
  }

  lemma NoHyphen(d: string)
    requires AllDigits(d)
    ensures '-' !in d
  {
    forall k | 0 <= k < |d| ensures d[k] != '-' {
      assert IsDigit(d[k]);
    }
  }

  /** SplitOn undoes a single separator between separator-free pieces. */
  lemma {:induction false} SplitOnJoin(x: string, y: string)
    requires '-' !in x && '-' !in y
    ensures SplitOn(x + "-" + y, '-') == [x, y]
    decreases |x|
  {
    var s := x + "-" + y;
    if x == [] {
      assert s == ['-'] + y && s[1..] == y;
      SplitOnFree(y);
    } else {
      assert x[0] != '-' && '-' !in x[1..] by { assert x == [x[0]] + x[1..]; }
      assert s[0] == x[0] && s[1..] == x[1..] + "-" + y;
      SplitOnJoin(x[1..], y);
      assert SplitOn(s[1..], '-') == [x[1..], y];
      assert [x[0]] + x[1..] == x;
    }
  }

  /** A separator-free string is one piece. */
  lemma {:induction false} SplitOnFree(y: string)
    requires '-' !in y
    ensures SplitOn(y, '-') == [y]
    decreases |y|
  {
    if y != [] {
      assert y[0] != '-' && '-' !in y[1..] by { assert y == [y[0]] + y[1..]; }
      SplitOnFree(y[1..]);
      assert y == [y[0]] + y[1..];
    }
  }

  /** A part with two hyphens is refused (the unpacking raises). */
  lemma TwoHyphensPart()
    ensures ParsePart("1-2-3") == Unpacking
  {
    var s := "1-2-3";
    assert s[1] == '-';
    assert multiset(s)['-'] == 2 by {
      assert s == ['1'] + ['-'] + ['2'] + ['-'] + ['3'];
    }
    SplitOnCount(s, '-');
  }

  /** A negative number is read as a range with an empty start, which
      int() rejects. */
  lemma NegativePart(a: nat)
    ensures ParsePart("-" + NatToString(a)) == BadRange
  {
    var y := NatToString(a);
    var s := "-" + y;
    assert s == [] + "-" + y && s[0] == '-';
    SplitOfRange([], y);
    assert ParseInt([]) == None by {
      assert Strip([]) == [];
    }
  }

  /** [s for s in selected if 1 <= s <= len(orders)] */
  function Clip(selected: set<int>, n: nat): set<int> {
    set s | s in selected && 1 <= s <= n
  }

  // ---------------------------------------------------------------- updates

  /** One fulfilment update as sent: the order, the new status, the
      tracking number. */
  datatype Put = Put(orderId: string, status: string, tracking: Option<string>)

  /** The fulfilment endpoint and the updates sent to it. `respond` gives
      the HTTP status of an update, None where the request raises. */
  class Api {
    const respond: Put -> Option<int>
    var puts: seq<Put>

    constructor(respond: Put -> Option<int>)
      ensures this.respond == respond && puts == []
    {
      this.respond := respond;
      puts := [];
    }

    /** update_order_status: one request; true iff it answered 200. */
    method UpdateOrderStatus(orderId: string, status: string, tracking: Option<string>) returns (ok: bool)
      modifies this
      ensures puts == old(puts) + [Put(orderId, status, tracking)]
      ensures ok <==> respond(Put(orderId, status, tracking)) == Some(200)
    {
      var put := Put(orderId, status, tracking);
      puts := puts + [put];
      ok := respond(put) == Some(200);
    }
  }

  /** The updates for the chosen order numbers (1-based), in that order. */
  function Requests(orders: seq<Order>, indices: seq<int>, status: string, tracking: Option<string>): (r: seq<Put>)
    requires forall k :: 0 <= k < |indices| ==> 1 <= indices[k] <= |orders|
    ensures |r| == |indices|
    ensures forall k :: 0 <= k < |indices| ==> r[k] == Put(orders[indices[k] - 1].id, status, tracking)
    decreases |indices|
  {
    if indices == [] then []
    else
      var k := |indices| - 1;
      Requests(orders, indices[..k], status, tracking) + [Put(orders[indices[k] - 1].id, status, tracking)]
  }

  /** The updates answered with 200. */
  function Successes(respond: Put -> Option<int>, puts: seq<Put>): (n: nat)
    ensures n <= |puts|
    decreases |puts|
  {
    if puts == [] then 0
    else Successes(respond, puts[..|puts| - 1]) + if respond(puts[|puts| - 1]) == Some(200) then 1 else 0
  }

  lemma SuccessesSnoc(respond: Put -> Option<int>, puts: seq<Put>, p: Put)
    ensures Successes(respond, puts + [p]) == Successes(respond, puts) + if respond(p) == Some(200) then 1 else 0
  {
    assert (puts + [p])[..|puts|] == puts;
  }

  lemma SendStep(respond: Put -> Option<int>, all: seq<Put>, k: nat)
    requires k < |all|
    ensures all[..k + 1] == all[..k] + [all[k]]
    ensures Successes(respond, all[..k + 1]) == Successes(respond, all[..k]) + if respond(all[k]) == Some(200) then 1 else 0
  {
    assert all[..k + 1] == all[..k] + [all[k]];
    SuccessesSnoc(respond, all[..k], all[k]);
  }

  predicate Ascending(s: seq<int>) {
    forall i, j :: 0 <= i < j < |s| ==> s[i] < s[j]
  }

  function IntLe(a: int, b: int): bool { a <= b }

  lemma IntLeTotal()
    ensures TotalPreorder(IntLe)
  {
  }

  /** sorted(selected): the chosen numbers, each once, ascending. */
  method SortedNumbers(picked: set<int>) returns (indices: seq<int>)
    ensures Ascending(indices) && (forall i :: i in indices <==> i in picked) && |indices| == |picked|
  {
    IntLeTotal();
    indices := SortedElements(picked, IntLe);
    forall i, j | 0 <= i < j < |indices| ensures indices[i] < indices[j] {
      assert IntLe(indices[i], indices[j]) && indices[i] != indices[j];
    }
  }

  /** The update loop: one update per chosen order, in ascending order,
      counting successes and failures. */
  method ApplyUpdates(api: Api, orders: seq<Order>, picked: set<int>, status: string, tracking: Option<string>)
    returns (indices: seq<int>, success: nat, failed: nat)
    requires forall i :: i in picked ==> 1 <= i <= |orders|
    modifies api
    ensures Ascending(indices) && (forall i :: i in indices <==> i in picked) && |indices| == |picked|
    ensures forall k :: 0 <= k < |indices| ==> 1 <= indices[k] <= |orders|
    ensures api.puts == old(api.puts) + Requests(orders, indices, status, tracking)
    ensures success == Successes(api.respond, Requests(orders, indices, status, tracking))
    ensures success + failed == |indices|
  {
    indices := SortedNumbers(picked);
    forall k | 0 <= k < |indices| ensures 1 <= indices[k] <= |orders| {
      assert indices[k] in indices;
    }
    success, failed := SendUpdates(api, orders, indices, status, tracking);
  }

  /** The body of the update loop, over the sorted order numbers. */
  method SendUpdates(api: Api, orders: seq<Order>, indices: seq<int>, status: string, tracking: Option<string>)
    returns (success: nat, failed: nat)
    requires forall k :: 0 <= k < |indices| ==> 1 <= indices[k] <= |orders|
    modifies api
    ensures api.puts == old(api.puts) + Requests(orders, indices, status, tracking)
    ensures success == Successes(api.respond, Requests(orders, indices, status, tracking))
    ensures success + failed == |indices|
  {
    ghost var all := Requests(orders, indices, status, tracking);
    success, failed := 0, 0;
    for k := 0 to |indices|
      invariant api.puts == old(api.puts) + all[..k]
      invariant success == Successes(api.respond, all[..k])
      invariant success + failed == k
    {
      var order := orders[indices[k] - 1];
      assert all[k] == Put(order.id, status, tracking);
      SendStep(api.respond, all, k);
      var ok := api.UpdateOrderStatus(order.id, status, tracking);
      if ok {
        success := success + 1;
      } else {
        failed := failed + 1;
      }
    }
    assert all[..|indices|] == all;
  }

  // ---------------------------------------------------------------- main

  /** How main ends. Unprintable is the traceback of the listing's print;
      Refused holds the part that stopped the selection, and an Unpackable
      part ends it with a traceback. */
  datatype RunEnd =
    | FetchAborted | NoOrders | Unprintable | Quit | InvalidChoice | Cancelled
    | Refused(selection: Selection) | NoValidOrders | NotConfirmed
    | EndOfInput | Done(success: nat, failed: nat)

  /** What main decides before its update loop: where it stops, or which
      orders it is about to update, to which status, with which tracking. */
  datatype Plan = Stop(end: RunEnd) | Update(picked: set<int>, status: string, tracking: Option<string>)

  /** input().strip().lower() */
  function Answer(line: string): string { Lower(Strip(line)) }

  /** '1' is processing, '2' shipped. */
  function StatusFor(action: string): Option<string> {
    if action == "1" then Some("processing") else if action == "2" then Some("shipped") else None
  }

  /** The line the confirmation is read from: the tracking number comes
      first when shipping. */
  function ConfirmLine(status: string): nat { if status == "shipped" then 3 else 2 }

  /** The listing prints: `:15s` formats only a string label, and any
      other value raises before the first question. */
  predicate Printable(orders: seq<Order>) {
    forall i :: 0 <= i < |orders| ==> orders[i].orderLabel.TextLabel?
  }

  /** main after the fetch, on the lines the operator types: the listing
      is empty or does not print, or the first line chooses the new
      status. */
  function PlanOf(orders: seq<Order>, lines: seq<string>): Plan {
    if orders == [] then Stop(NoOrders)
    else if !Printable(orders) then Stop(Unprintable)
    else if lines == [] then Stop(EndOfInput)
    else
      var action := Answer(lines[0]);
      if action == "q" then Stop(Quit)
      else if StatusFor(action).None? then Stop(InvalidChoice)
      else PlanSelection(orders, lines, StatusFor(action).value)
  }

  /** The second line chooses the orders. */
  function PlanSelection(orders: seq<Order>, lines: seq<string>, status: string): Plan {
    if |lines| < 2 then Stop(EndOfInput)
    else
      var choice := Answer(lines[1]);
      if choice == "q" then Stop(Cancelled)
      else
        var selection := ParseChoice(choice, |orders|);
        if !selection.Chosen? then Stop(Refused(selection))
        else
          var picked := Clip(selection.numbers, |orders|);
          if picked == {} then Stop(NoValidOrders)
          else PlanConfirmation(picked, lines, status)
  }

  /** When shipping, the third line is the tracking number; the next line
      must confirm. */
  function PlanConfirmation(picked: set<int>, lines: seq<string>, status: string): Plan {
    if |lines| <= ConfirmLine(status) then Stop(EndOfInput)
    else
      var tracking := if status == "shipped" && Strip(lines[2]) != "" then Some(Strip(lines[2])) else None;
      if Answer(lines[ConfirmLine(status)]) != "y" then Stop(NotConfirmed)
      else Update(picked, status, tracking)
  }

  /** An update names at least one order, and only orders of the listing. */
  lemma PlanInRange(orders: seq<Order>, lines: seq<string>)
    requires PlanOf(orders, lines).Update?
    ensures PlanOf(orders, lines).picked != {}
    ensures forall i :: i in PlanOf(orders, lines).picked ==> 1 <= i <= |orders|
  {
  }

  /** An update happens only on an action of '1' or '2'
      mapped to its status, and after the operator confirmed with 'y';
      a tracking number is sent only when shipping, and never empty. */
  lemma PlanConsent(orders: seq<Order>, lines: seq<string>)
    requires PlanOf(orders, lines).Update?
    ensures var p := PlanOf(orders, lines);
      && |lines| > ConfirmLine(p.status) && Answer(lines[ConfirmLine(p.status)]) == "y"
      && Answer(lines[0]) in {"1", "2"} && Some(p.status) == StatusFor(Answer(lines[0]))
      && (p.tracking.Some? ==> p.status == "shipped" && p.tracking.value != [] && p.tracking == Some(Strip(lines[2])))
  {
  }

  /** 'all' picks every order of the listing. */
  lemma PlanAll(orders: seq<Order>, lines: seq<string>, status: string)
    requires |lines| >= 2 && Answer(lines[1]) == "all"
    requires PlanSelection(orders, lines, status).Update?
    ensures forall i :: i in PlanSelection(orders, lines, status).picked <==> 1 <= i <= |orders|
  {
    ClipAll(|orders|);
    RangeMembers(1, |orders| + 1);
  }

  /** Every order number survives the range check. */
  lemma ClipAll(n: nat)
    ensures Clip(Range(1, n + 1), n) == Range(1, n + 1)
  {
    RangeMembers(1, n + 1);
  }

  /** The console dialogue of main, up to the update loop. */
  method Converse(orders: seq<Order>, lines: seq<string>) returns (plan: Plan)
    ensures plan == PlanOf(orders, lines)
  {
    if orders == [] {
      return Stop(NoOrders);
    }
    for i := 0 to |orders|
      invariant forall j :: 0 <= j < i ==> orders[j].orderLabel.TextLabel?
    {
      if !orders[i].orderLabel.TextLabel? {
        return Stop(Unprintable);
      }
    }
    if lines == [] {
      return Stop(EndOfInput);
    }
    var action := Answer(lines[0]);
    if action == "q" {
      return Stop(Quit);
    }
    if action != "1" && action != "2" {
      return Stop(InvalidChoice);
    }
    var status := if action == "1" then "processing" else "shipped";
    plan := ChooseOrders(orders, lines, status);
  }

  /** The order-number question, and for shipping the tracking number,
      then the confirmation. */
  method ChooseOrders(orders: seq<Order>, lines: seq<string>, status: string) returns (plan: Plan)
    ensures plan == PlanSelection(orders, lines, status)
  {
    if |lines| < 2 {
      return Stop(EndOfInput);
    }
    var choice := Answer(lines[1]);
    if choice == "q" {
      return Stop(Cancelled);
    }
    var selection := ReadSelection(choice, |orders|);
    if !selection.Chosen? {
      return Stop(Refused(selection));
    }
    var picked := Clip(selection.numbers, |orders|);
    if picked == {} {
      return Stop(NoValidOrders);
    }
    var next := 2;
    var tracking: Option<string> := None;
    if status == "shipped" {
      if |lines| < 3 {
        return Stop(EndOfInput);
      }
      var typed := Strip(lines[2]);
      tracking := if typed != "" then Some(typed) else None;
      next := 3;
    }
    if |lines| <= next {
      return Stop(EndOfInput);
    }
    if Answer(lines[next]) != "y" {
      return Stop(NotConfirmed);
    }
    plan := Update(picked, status, tracking);
  }

  /** What carrying out a plan does: when it stops, nothing is sent;
      otherwise one update per chosen order number, ascending, and the
      tally of the answers. */
  ghost predicate Executed(orders: seq<Order>, respond: Put -> Option<int>, before: seq<Put>, after: seq<Put>,
                           plan: Plan, end: RunEnd, updated: seq<int>)
  {
    && (plan.Stop? ==> end == plan.end && updated == [] && after == before)
    && (plan.Update? ==>
          && Ascending(updated) && (forall i :: i in updated <==> i in plan.picked)
          && (forall k :: 0 <= k < |updated| ==> 1 <= updated[k] <= |orders|)
          && var sent := Requests(orders, updated, plan.status, plan.tracking);
          && after == before + sent
          && end.Done? && end.success == Successes(respond, sent) && end.success + end.failed == |updated|)
  }

  /** The end of main: stop where the dialogue stopped, or run the update
      loop and report the tally. */
  method Execute(orders: seq<Order>, plan: Plan, api: Api) returns (end: RunEnd, updated: seq<int>)
    requires plan.Update? ==> forall i :: i in plan.picked ==> 1 <= i <= |orders|
    modifies api
    ensures Executed(orders, api.respond, old(api.puts), api.puts, plan, end, updated)
  {
    if plan.Stop? {
      return plan.end, [];
    }
    var success, failed;
    updated, success, failed := ApplyUpdates(api, orders, plan.picked, plan.status, plan.tracking);
    end := Done(success, failed);
  }

  /** main once the listing is fetched: the dialogue, then the update
      loop when the operator went through with it. */
  method Respond(orders: seq<Order>, lines: seq<string>, api: Api) returns (plan: Plan, end: RunEnd, updated: seq<int>)
    modifies api
    ensures plan == PlanOf(orders, lines)
    ensures Executed(orders, api.respond, old(api.puts), api.puts, plan, end, updated)
  {
    plan := Converse(orders, lines);
    if plan.Update? {
      PlanInRange(orders, lines);
    }
    end, updated := Execute(orders, plan, api);
  }

  /** quick_fulfillment_updater's main: the fetch, the console dialogue
      and the update loop. */
  method Run(email: string, token: string, server: Server, lines: seq<string>, api: Api)
    returns (fetched: Fetch, plan: Plan, end: RunEnd, updated: seq<int>)
    modifies api
    ensures fetched == FetchAll(email, token, server).0
    ensures fetched.Aborted? ==> end == FetchAborted && updated == [] && api.puts == old(api.puts)
    ensures fetched.Fetched? ==> plan == PlanOf(fetched.orders, lines)
    ensures fetched.Fetched? ==> Executed(fetched.orders, api.respond, old(api.puts), api.puts, plan, end, updated)
  {
    var requested;
    fetched, requested := GetUnfulfilledOrders(email, token, server);
    if fetched.Aborted? {
      return fetched, Stop(FetchAborted), FetchAborted, [];
    }
    plan, end, updated := Respond(fetched.orders, lines, api);
  }

}
