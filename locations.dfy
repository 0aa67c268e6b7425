/** The set-code to storage-location mapping of manapoolsheet.py:
    load_set_locations normalises keys to upper case, and
    get_location_for_set answers from the mapping, remembers which sets it
    has already asked about during the run, and asks the operator to pick
    or create a location for a set it has never seen. The operator's
    answers are a finite sequence of lines; when they run out, input()
    raises EOFError, which nothing catches, so the run stops. The GUI's
    read-only lookup (picklist_gui.py) is here too. */
module Locations {
  import opened Wrappers
  import opened Text
  import opened Ordering
  import opened NaturalSort

  /** The answer for a set already asked about but still without a location. */
  const Unassigned := "Unassigned"

  predicate UpperKeyed(m: map<string, string>) {
    forall k :: k in m ==> IsUpper(k)
  }

  // ---------------------------------------------------------------- loading

  /** `{k.upper(): v for k, v in locations.items()}` over the pairs of the
      JSON object in file order: a later key that upper-cases to the same
      string overwrites the earlier one. */
  function NormalizeKeys(pairs: seq<(string, string)>): map<string, string>
    decreases |pairs|
  {
    if pairs == [] then map[]
    else
      var last := pairs[|pairs| - 1];
      NormalizeKeys(pairs[..|pairs| - 1])[Upper(last.0) := last.1]
  }

  /** The index of the last pair whose key upper-cases to k. */
  predicate LastPairFor(pairs: seq<(string, string)>, i: int, k: string) {
    && 0 <= i < |pairs| && Upper(pairs[i].0) == k
    && forall j :: i < j < |pairs| ==> Upper(pairs[j].0) != k
  }

  /** The normalised mapping has exactly the upper-cased keys of the file,
      and each maps to the value of the last pair with that key. */
  lemma {:induction false} NormalizeKeysSpec(pairs: seq<(string, string)>)
    ensures UpperKeyed(NormalizeKeys(pairs))
    ensures forall i :: 0 <= i < |pairs| ==> Upper(pairs[i].0) in NormalizeKeys(pairs)
    ensures forall k :: k in NormalizeKeys(pairs) ==> exists i :: LastPairFor(pairs, i, k)
    ensures forall i, k :: LastPairFor(pairs, i, k) ==> NormalizeKeys(pairs)[k] == pairs[i].1
    decreases |pairs|
  {
    if pairs != [] {
      var init := pairs[..|pairs| - 1];
      NormalizeKeysSpec(init);
      NormalizeKeysStep(pairs);
    }
  }

  /** One more pair keeps the three facts above. */
  lemma NormalizeKeysStep(pairs: seq<(string, string)>)
    requires pairs != []
    requires var init := pairs[..|pairs| - 1];
      && UpperKeyed(NormalizeKeys(init))
      && (forall i :: 0 <= i < |init| ==> Upper(init[i].0) in NormalizeKeys(init))
      && (forall k :: k in NormalizeKeys(init) ==> exists i :: LastPairFor(init, i, k))
      && (forall i, k :: LastPairFor(init, i, k) ==> NormalizeKeys(init)[k] == init[i].1)
    ensures UpperKeyed(NormalizeKeys(pairs))
    ensures forall i :: 0 <= i < |pairs| ==> Upper(pairs[i].0) in NormalizeKeys(pairs)
    ensures forall k :: k in NormalizeKeys(pairs) ==> exists i :: LastPairFor(pairs, i, k)
    ensures forall i, k :: LastPairFor(pairs, i, k) ==> NormalizeKeys(pairs)[k] == pairs[i].1
  {
    var init := pairs[..|pairs| - 1];
    UpperIsUpper(pairs[|pairs| - 1].0);
    NormalizeKeysCovers(pairs);
    NormalizeKeysFromLast(pairs);
    NormalizeKeysValues(pairs);
  }

  lemma NormalizeKeysCovers(pairs: seq<(string, string)>)
    requires pairs != []
    requires var init := pairs[..|pairs| - 1];
      forall i :: 0 <= i < |init| ==> Upper(init[i].0) in NormalizeKeys(init)
    ensures forall i :: 0 <= i < |pairs| ==> Upper(pairs[i].0) in NormalizeKeys(pairs)
  {
    var init := pairs[..|pairs| - 1];
    forall i | 0 <= i < |pairs| ensures Upper(pairs[i].0) in NormalizeKeys(pairs) {
      if i < |pairs| - 1 { assert pairs[i] == init[i]; }
    }
  }

  lemma NormalizeKeysFromLast(pairs: seq<(string, string)>)
    requires pairs != []
    requires var init := pairs[..|pairs| - 1];
      forall k :: k in NormalizeKeys(init) ==> exists i :: LastPairFor(init, i, k)
    ensures forall k :: k in NormalizeKeys(pairs) ==> exists i :: LastPairFor(pairs, i, k)
  {
    var init := pairs[..|pairs| - 1];
    var last := pairs[|pairs| - 1];
    assert NormalizeKeys(pairs) == NormalizeKeys(init)[Upper(last.0) := last.1];
    forall k | k in NormalizeKeys(pairs) ensures exists i :: LastPairFor(pairs, i, k) {
      if k == Upper(last.0) {
        assert LastPairFor(pairs, |pairs| - 1, k);
      } else {
        var i :| LastPairFor(init, i, k);
        assert pairs[i] == init[i];
        assert LastPairFor(pairs, i, k);
      }
    }
  }

  lemma NormalizeKeysValues(pairs: seq<(string, string)>)
    requires pairs != []
    requires forall i :: 0 <= i < |pairs| ==> Upper(pairs[i].0) in NormalizeKeys(pairs)
    requires var init := pairs[..|pairs| - 1];
      forall i :: 0 <= i < |init| ==> Upper(init[i].0) in NormalizeKeys(init)
    requires var init := pairs[..|pairs| - 1];
      forall i, k :: LastPairFor(init, i, k) ==> NormalizeKeys(init)[k] == init[i].1
    ensures forall i, k :: LastPairFor(pairs, i, k) ==> NormalizeKeys(pairs)[k] == pairs[i].1
  {
    var init := pairs[..|pairs| - 1];
    forall i, k | LastPairFor(pairs, i, k) ensures NormalizeKeys(pairs)[k] == pairs[i].1 {
      if i < |pairs| - 1 {
        assert pairs[i] == init[i];
        forall j | i < j < |init| ensures Upper(init[j].0) != k {
          assert init[j] == pairs[j];
        }
        assert LastPairFor(init, i, k);
      }
    }
  }

  lemma UpperKeyedFixed(m: map<string, string>)
    requires UpperKeyed(m)
    ensures forall k :: k in m ==> Upper(k) == k
  {
    forall k | k in m ensures Upper(k) == k {
      UpperIsUpper(k);
    }
  }

  // ---------------------------------------------------------------- the GUI's lookup

  /** picklist_gui's get_location_for_set: "Unknown" for an empty set code,
      otherwise the stored location of the upper-cased code, or
      "Unassigned". The GUI reads locations.json as it is, without
      normalising its keys. */
  function GuiLocationForSet(setCode: string, locations: map<string, string>): (loc: string)
    ensures setCode == [] ==> loc == "Unknown"
    ensures setCode != [] && Upper(setCode) in locations ==> loc == locations[Upper(setCode)]
    ensures setCode != [] && Upper(setCode) !in locations ==> loc == Unassigned
  {
    if setCode == [] then "Unknown"
    else if Upper(setCode) in locations then locations[Upper(setCode)]
    else Unassigned
  }

  /** The lookup ignores the letter case of the set code. */
  lemma GuiLocationIgnoresCase(a: string, b: string, locations: map<string, string>)
    requires Upper(a) == Upper(b)
    ensures GuiLocationForSet(a, locations) == GuiLocationForSet(b, locations)
  {
    assert |Upper(a)| == |a| && |Upper(b)| == |b|;
  }

  // ---------------------------------------------------------------- the prompt

  datatype PromptOutcome = Chosen(location: string, rest: seq<string>) | Exhausted

  /** How the prompt reads the operator's lines when n locations are
      listed: the listed location picked by its (zero-based) index, or the
      name typed for a new one, each with the lines left; RanOut when the
      lines end first. Which location is listed where does not matter here. */
  datatype Answer = Picked(index: nat, rest: seq<string>) | Typed(name: string, rest: seq<string>) | RanOut

  /** The protocol of the `while True` loop: a number k in 1..n picks the
      k-th listed location; n + 1 reads one more line and, if it is
      non-empty once stripped, creates that location; anything else (not a
      number, a number out of range, an empty name) asks again. */
  function ReadAnswer(n: nat, lines: seq<string>): (a: Answer)
    ensures a.Picked? ==> a.index < n
    ensures a.Typed? ==> a.name != []
    decreases |lines|
  {
    if lines == [] then RanOut
    else
      var k := ParseInt(Strip(lines[0]));
      if k.Some? && 1 <= k.value <= n then Picked(k.value - 1, lines[1..])
      else if k.Some? && k.value == n + 1 then
        if |lines| == 1 then RanOut
        else if Strip(lines[1]) != [] then Typed(Strip(lines[1]), lines[2..])
        else ReadAnswer(n, lines[2..])
      else ReadAnswer(n, lines[1..])
  }

  /** What the prompt settles on, given the listed locations and the
      operator's remaining lines. */
  function Prompt(options: seq<string>, lines: seq<string>): PromptOutcome {
    match ReadAnswer(|options|, lines)
    case Picked(i, rest) => Chosen(options[i], rest)
    case Typed(name, rest) => Chosen(name, rest)
    case RanOut => Exhausted
  }

  /** A line that the prompt rejects outright: not an integer, or an
      integer outside 1..n+1. */
  predicate Rejected(options: seq<string>, line: string) {
    var k := ParseInt(Strip(line));
    k.None? || k.value < 1 || k.value > |options| + 1
  }

  /** An answer either comes from the first lines (a number picked, or a
      name typed on the line after the "new" number) or is the answer the
      lines after the first m give: one line skipped, or two after an empty
      name. */
  lemma ReadAnswerSkips(n: nat, lines: seq<string>) returns (m: nat)
    requires lines != []
    ensures 1 <= m <= |lines|
    ensures var a := ReadAnswer(n, lines);
      || (a.Picked? && a.rest == lines[1..])
      || (|lines| > 1 && a.Typed? && a.rest == lines[2..] && a.name == Strip(lines[1]))
      || a == ReadAnswer(n, lines[m..])
      || a.RanOut?
  {
    var k := ParseInt(Strip(lines[0]));
    if k.Some? && k.value == n + 1 && |lines| > 1 {
      m := 2;
    } else {
      m := 1;
    }
  }

  /** A typed name is a non-empty stripped line after the first, and an
      answer consumes at least one line and leaves the unread ones. */
  lemma {:induction false} ReadAnswerSpec(n: nat, lines: seq<string>)
    ensures var a := ReadAnswer(n, lines);
      && (a.Typed? ==> exists i :: 0 < i < |lines| && a.name == Strip(lines[i]))
      && (!a.RanOut? ==> |a.rest| < |lines| && a.rest == lines[|lines| - |a.rest|..])
    decreases |lines|
  {
    var a := ReadAnswer(n, lines);
    if lines != [] && !a.RanOut? {
      var m := ReadAnswerSkips(n, lines);
      if a.Picked? && a.rest == lines[1..] {
      } else if |lines| > 1 && a.Typed? && a.rest == lines[2..] && a.name == Strip(lines[1]) {
      } else {
        var tail := lines[m..];
        ReadAnswerSpec(n, tail);
        if a.Typed? {
          var i :| 0 < i < |tail| && a.name == Strip(tail[i]);
          assert tail[i] == lines[i + m];
        }
        assert tail[|tail| - |a.rest|..] == lines[|lines| - |a.rest|..];
      }
    }
  }

  /** What the prompt settles on is one of the listed locations or a
      non-empty, stripped line the operator typed, and it consumes at least
      one line of input. */
  lemma PromptChoice(options: seq<string>, lines: seq<string>)
    ensures Prompt(options, lines).Chosen? ==>
      var c := Prompt(options, lines);
      && (c.location in options || exists i :: 0 < i < |lines| && c.location == Strip(lines[i]) && c.location != [])
      && |c.rest| < |lines| && c.rest == lines[|lines| - |c.rest|..]
  {
    ReadAnswerSpec(|options|, lines);
  }

  /** A rejected first line is dropped and the prompt asks again. */
  lemma PromptDropsRejected(options: seq<string>, lines: seq<string>)
    requires lines != [] && Rejected(options, lines[0])
    ensures Prompt(options, lines) == Prompt(options, lines[1..])
  {
  }

  /** Lines that are rejected outright change nothing: the outcome is the
      one the remaining lines give. */
  lemma {:induction false} PromptSkipsRejected(options: seq<string>, junk: seq<string>, lines: seq<string>)
    requires forall i :: 0 <= i < |junk| ==> Rejected(options, junk[i])
    ensures Prompt(options, junk + lines) == Prompt(options, lines)
    decreases |junk|
  {
    if junk != [] {
      var all := junk + lines;
      assert all[0] == junk[0];
      assert all[1..] == junk[1..] + lines;
      PromptDropsRejected(options, all);
      PromptSkipsRejected(options, junk[1..], lines);
    } else {
      assert junk + lines == lines;
    }
  }

  /** The listing shown to the operator: every stored location once, in
      natural order. */
  ghost predicate NaturalListing(listed: seq<string>, values: set<string>) {
    && Sorted(listed, NaturalLe) && Distinct(listed)
    && forall x :: x in listed <==> x in values
  }

  // ---------------------------------------------------------------- the resolver

  /** The state get_location_for_set works on during one run of the
      order processor: the mapping (existing_locations), the sets already
      asked about (new_sets_found) and the operator lines not yet read. */
  class LocationResolver {
    var locations: map<string, string>
    var newSetsFound: set<string>
    var input: seq<string>

    ghost predicate Valid()
      reads this
    {
      UpperKeyed(locations) && forall k :: k in newSetsFound ==> IsUpper(k)
    }

    /** The mapping as load_set_locations returns it, and no set asked yet. */
    constructor(pairs: seq<(string, string)>, lines: seq<string>)
      ensures Valid()
      ensures locations == NormalizeKeys(pairs) && newSetsFound == {} && input == lines
    {
      locations := NormalizeKeys(pairs);
      newSetsFound := {};
      input := lines;
      NormalizeKeysSpec(pairs);
    }

    /** What main writes to locations.json: the mapping with its keys
        upper-cased again. The keys already are, so nothing is merged or
        renamed and the file holds the mapping as it stands. */
    method SavedMapping() returns (saved: map<string, string>)
      requires Valid()
      ensures saved == locations
    {
      UpperKeyedFixed(locations);
      saved := map k | k in locations :: Upper(k) := locations[k];
    }

    /** get_location_for_set. None stands for the operator's input running
        out (EOFError), which ends the run. */
    method GetLocationForSet(setCode: string) returns (r: Option<string>, ghost listed: seq<string>)
      requires Valid()
      modifies this
      ensures Valid()
      // a known set: answered from the mapping, nothing changes
      ensures Upper(setCode) in old(locations) ==>
        r == Some(old(locations)[Upper(setCode)]) && unchanged(this)
      // a set already asked about this run: not asked again
      ensures Upper(setCode) !in old(locations) && Upper(setCode) in old(newSetsFound) ==>
        r == Some(Unassigned) && unchanged(this)
      // a new set: recorded as asked, then the prompt decides
      ensures Upper(setCode) !in old(locations) && Upper(setCode) !in old(newSetsFound) ==>
        && newSetsFound == old(newSetsFound) + {Upper(setCode)}
        && NaturalListing(listed, old(locations).Values) && |listed| == |old(locations).Values|
        && match Prompt(listed, old(input))
           case Exhausted => r == None && locations == old(locations) && input == []
           case Chosen(location, rest) =>
             r == Some(location) && locations == old(locations)[Upper(setCode) := location] && input == rest
      // a stored location is never overwritten
      ensures forall k :: k in old(locations) ==> k in locations && locations[k] == old(locations)[k]
    {
      var key := Upper(setCode);
      UpperIsUpper(setCode);
      listed := [];
      if key in locations {
        r := Some(locations[key]);
        return;
      }
      if key in newSetsFound {
        // existing_locations.get(key, "Unassigned") with key not stored
        r := Some(Unassigned);
        return;
      }
      newSetsFound := newSetsFound + {key};
      NaturalLeTotalPreorder();
      var options := SortedElements(locations.Values, NaturalLe);
      listed := options;
      r := Ask(key, options);
    }

    /** The `while True` prompt for a new set: the operator's lines are
        consumed exactly as Prompt describes, and a chosen location is
        stored under the set's key. */
    method Ask(key: string, options: seq<string>) returns (r: Option<string>)
      requires Valid() && IsUpper(key) && key !in locations
      modifies this
      ensures Valid() && newSetsFound == old(newSetsFound)
      ensures match Prompt(options, old(input))
        case Exhausted => r == None && locations == old(locations) && input == []
        case Chosen(location, rest) =>
          r == Some(location) && locations == old(locations)[key := location] && input == rest
    {
      ghost var outcome := Prompt(options, input);
      var lines := input;
      var chosen: Option<string> := None;
      while true
        invariant chosen.None? && Prompt(options, lines) == outcome
        decreases |lines|
      {
        if lines == [] {
          break;
        }
        var parsed := ParseInt(Strip(lines[0]));
        var rest := lines[1..];
        if parsed.Some? && 1 <= parsed.value <= |options| {
          chosen, lines := Some(options[parsed.value - 1]), rest;
          break;
        } else if parsed.Some? && parsed.value == |options| + 1 {
          if rest == [] {
            lines := rest;
            break;
          }
          var name := Strip(rest[0]);
          lines := rest[1..];
          if name != [] {
            chosen := Some(name);
            break;
          }
        } else {
          lines := rest;
        }
      }
      input := lines;
      if chosen.Some? {
        locations := locations[key := chosen.value];
      }
      r := chosen;
    }
  }
}
