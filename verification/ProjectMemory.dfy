/** The store of explicitly saved project memory and the context built from it
    (memory/project_memory.py). */
module ProjectMemory {
  import opened Options
  import opened Strings

  const MAX_ENTRY_CHARS := 2000
  const MAX_ENTRIES := 5000
  const MAX_CONTEXT_CHARS := 4000
  const MAX_CONTEXT_ENTRIES := 50
  const LAST_ID := 999_999

  datatype Entry = Entry(id: string, kind: string, text: string, source: string)

  /** What the model takes from Python: the value of a decimal digit of any script (or -1),
      lower-casing, case folding, and JSON string quoting. */
  datatype Text = Text(digit: char -> int, lower: string -> string, fold: string -> string, quote: string -> string) {
    /** ASCII digits have their usual values. */
    ghost predicate Proper() {
      && (forall c :: -1 <= digit(c) <= 9)
      && (forall k :: 0 <= k <= 9 ==> digit(AsciiDigit(k)) == k)
    }
  }

  function AsciiDigit(k: int): char
    requires 0 <= k <= 9
  {
    '0' + k as char
  }

  // ---- identifiers ----

  predicate IsKind(kind: string) { kind in {"decision", "fact", "constraint"} }

  /** `mem-` and six decimal digits. */
  predicate IsId(x: Text, id: string) {
    |id| == 10 && id[..4] == "mem-" && forall i :: 4 <= i < 10 ==> x.digit(id[i]) >= 0
  }

  function Number(x: Text, digits: string): int
    requires forall i :: 0 <= i < |digits| ==> x.digit(digits[i]) >= 0
  {
    if digits == "" then 0 else 10 * Number(x, digits[..|digits| - 1]) + x.digit(digits[|digits| - 1])
  }

  function IdNumber(x: Text, id: string): int
    requires IsId(x, id)
  {
    Number(x, id[4..])
  }

  /** n with leading zeros to the given width. */
  function Padded(n: nat, width: nat): string
    decreases width
  {
    if width == 0 then "" else Padded(n / 10, width - 1) + [AsciiDigit(n % 10)]
  }

  function FormatId(n: nat): string { "mem-" + Padded(n, 6) }

  function Power(k: nat): nat { if k == 0 then 1 else 10 * Power(k - 1) }

  lemma {:induction false} PaddedParses(x: Text, n: nat, width: nat)
    requires x.Proper() && n < Power(width)
    ensures var s := Padded(n, width);
            && |s| == width && (forall i :: 0 <= i < |s| ==> x.digit(s[i]) >= 0 && '0' <= s[i] <= '9')
            && Number(x, s) == n
    decreases width
  {
    if width > 0 {
      PaddedParses(x, n / 10, width - 1);
      var s := Padded(n, width);
      assert s[..width - 1] == Padded(n / 10, width - 1);
      assert x.digit(AsciiDigit(n % 10)) == n % 10;
    }
  }

  /** Formatting and parsing are inverse for every number that fits six digits. */
  lemma IdRoundTrip(x: Text, n: nat)
    requires x.Proper() && n <= LAST_ID
    ensures IsId(x, FormatId(n)) && IdNumber(x, FormatId(n)) == n
    ensures forall i :: 4 <= i < 10 ==> '0' <= FormatId(n)[i] <= '9'
  {
    assert Power(6) == 1_000_000 by {
      assert Power(1) == 10 && Power(2) == 100 && Power(3) == 1000 && Power(4) == 10_000 && Power(5) == 100_000;
    }
    PaddedParses(x, n, 6);
    var id := FormatId(n);
    assert id[4..] == Padded(n, 6);
    forall i | 4 <= i < 10 ensures x.digit(id[i]) >= 0 && '0' <= id[i] <= '9' { assert id[i] == Padded(n, 6)[i - 4]; }
  }

  // ---- documents ----

  predicate ValidBody(e: Entry) {
    IsKind(e.kind) && Strip(e.text) != "" && |e.text| <= MAX_ENTRY_CHARS && e.source == "manual"
  }

  ghost predicate ValidDocument(x: Text, entries: seq<Entry>) {
    && |entries| <= MAX_ENTRIES
    && (forall i :: 0 <= i < |entries| ==> IsId(x, entries[i].id) && ValidBody(entries[i]))
    && (forall i, j :: 0 <= i < j < |entries| ==> entries[i].id != entries[j].id)
  }

  /** What a document asks of every entry. */
  lemma ValidEntriesAre(x: Text, entries: seq<Entry>, i: nat)
    requires ValidDocument(x, entries) && i < |entries|
    ensures var e := entries[i];
            && |e.id| == 10 && e.id[0] == 'm' && e.id[1] == 'e' && e.id[2] == 'm' && e.id[3] == '-'
            && (forall k :: 4 <= k < 10 ==> x.digit(e.id[k]) >= 0)
            && (e.kind == "decision" || e.kind == "fact" || e.kind == "constraint")
            && |Strip(e.text)| > 0 && |e.text| <= 2000 && e.source == "manual"
  {
    assert forall k :: 0 <= k < 4 ==> entries[i].id[k] == entries[i].id[..4][k];
    hide Strip;
  }

  method ValidateDocument(x: Text, entries: seq<Entry>) returns (ok: bool)
    ensures ok <==> ValidDocument(x, entries)
  {
    hide IsId, ValidBody;
    if |entries| > MAX_ENTRIES { return false; }
    var seenIds: set<string> := {};
    for k := 0 to |entries|
      invariant forall i :: 0 <= i < k ==> IsId(x, entries[i].id) && ValidBody(entries[i])
      invariant forall i, j :: 0 <= i < j < k ==> entries[i].id != entries[j].id
      invariant forall id :: id in seenIds <==> exists i :: 0 <= i < k && entries[i].id == id
    {
      var e := entries[k];
      if !IsId(x, e.id) { return false; }
      if e.id in seenIds { return false; }
      seenIds := seenIds + {e.id};
      if !ValidBody(e) { return false; }
    }
    return true;
  }

  datatype Added =
    | Saved(entry: Entry) | UnknownKind | EmptyText | TextTooLong | InvalidDocument | StoreFull | Duplicate
    | IdsExhausted | WriteFailed

  ghost predicate HasEqual(x: Text, entries: seq<Entry>, kind: string, text: string) {
    exists i :: 0 <= i < |entries| && entries[i].kind == kind && x.fold(Strip(entries[i].text)) == x.fold(text)
  }

  /** The first reason against saving an entry of this kind and text. */
  ghost function AddRefusal(x: Text, entries: seq<Entry>, kind: string, text: string): Option<Added> {
    if kind != "decision" && kind != "fact" && kind != "constraint" then Some(UnknownKind)
    else if |text| == 0 then Some(EmptyText)
    else if |text| > 2000 then Some(TextTooLong)
    else if !ValidDocument(x, entries) then Some(InvalidDocument)
    else if |entries| >= 5000 then Some(StoreFull)
    else if HasEqual(x, entries, kind, text) then Some(Duplicate)
    else if !AllBelow(x, entries, 999_999) then Some(IdsExhausted)
    else None
  }

  /** The least number above all others, and at least one. */
  ghost predicate IsNext(x: Text, entries: seq<Entry>, n: int)
    requires ValidDocument(x, entries)
  {
    n >= 1 && AllBelow(x, entries, n) && (n == 1 || !AllBelow(x, entries, n - 1))
  }

  ghost predicate AllBelow(x: Text, entries: seq<Entry>, n: int)
    requires ValidDocument(x, entries)
  {
    forall i :: 0 <= i < |entries| ==> IdNumber(x, entries[i].id) < n
  }

  /** The stored entries; `writes` says whether replacing the file succeeds. */
  class MemoryStore {
    var entries: seq<Entry>

    method HighestNumber(x: Text) returns (last: int)
      requires ValidDocument(x, entries)
      ensures last >= 0 && forall i :: 0 <= i < |entries| ==> IdNumber(x, entries[i].id) <= last
      ensures last == 0 || exists i :: 0 <= i < |entries| && IdNumber(x, entries[i].id) == last
    {
      hide IsId, ValidBody, Number;
      last := 0;
      for k := 0 to |entries|
        invariant last >= 0 && forall i :: 0 <= i < k ==> IdNumber(x, entries[i].id) <= last
        invariant last == 0 || exists i :: 0 <= i < k && IdNumber(x, entries[i].id) == last
      {
        var n := IdNumber(x, entries[k].id);
        if n > last { last := n; }
      }
    }

    method IsDuplicate(x: Text, kind: string, text: string) returns (found: bool)
      ensures found <==> HasEqual(x, entries, kind, text)
    {
      hide Strip;
      for k := 0 to |entries|
        invariant forall i :: 0 <= i < k ==>
                    !(entries[i].kind == kind && x.fold(Strip(entries[i].text)) == x.fold(text))
      {
        if entries[k].kind == kind && x.fold(Strip(entries[k].text)) == x.fold(text) { return true; }
      }
      return false;
    }

    /** A saved entry is appended with a number above all others, and the document stays valid;
        in every other case nothing changes. */
    method AddMemory(x: Text, rawKind: string, rawText: string, writes: bool) returns (r: Added)
      requires x.Proper()
      modifies this
      ensures !r.Saved? ==> entries == old(entries)
      ensures r.Saved? ==>
                && entries == old(entries) + [r.entry] && ValidDocument(x, old(entries)) && ValidDocument(x, entries)
                && r.entry.kind == x.lower(Strip(rawKind)) && r.entry.text == Strip(rawText)
                && IsId(x, r.entry.id) && IsNext(x, old(entries), IdNumber(x, r.entry.id))
                && forall i :: 4 <= i < 10 ==> '0' <= r.entry.id[i] <= '9'
      ensures match AddRefusal(x, old(entries), x.lower(Strip(rawKind)), Strip(rawText))
              case Some(refusal) => r == refusal
              case None => r.Saved? <==> writes
      ensures r == WriteFailed ==> !writes
    {
      hide IsId, ValidBody, ValidDocument, Strip, FormatId, IdNumber;
      var kind, text := x.lower(Strip(rawKind)), Strip(rawText);
      if !IsKind(kind) { return UnknownKind; }
      if text == "" { return EmptyText; }
      if |text| > MAX_ENTRY_CHARS { return TextTooLong; }
      var ok := ValidateDocument(x, entries);
      if !ok { return InvalidDocument; }
      if |entries| >= MAX_ENTRIES { return StoreFull; }
      var duplicate := IsDuplicate(x, kind, text);
      if duplicate { return Duplicate; }
      var last := HighestNumber(x);
      if last >= LAST_ID { return IdsExhausted; }
      var e := Entry(FormatId(last + 1), kind, text, "manual");
      IdRoundTrip(x, last + 1);
      NewBodyIsValid(e, rawText);
      AppendIsValid(x, entries, e);
      if !writes { return WriteFailed; }
      entries := entries + [e];
      return Saved(e);
    }
  }

  lemma StripTwice(t: string)
    ensures Strip(Strip(t)) == Strip(t)
  {
    StripStripped(t);
  }

  lemma NewBodyIsValid(e: Entry, rawText: string)
    requires IsKind(e.kind) && e.text == Strip(rawText) != "" && |e.text| <= MAX_ENTRY_CHARS && e.source == "manual"
    ensures ValidBody(e)
  {
    StripTwice(rawText);
  }

  lemma AppendIsValid(x: Text, entries: seq<Entry>, e: Entry)
    requires ValidDocument(x, entries) && |entries| < MAX_ENTRIES && IsId(x, e.id) && ValidBody(e)
    requires AllBelow(x, entries, IdNumber(x, e.id))
    ensures ValidDocument(x, entries + [e])
  {
    hide IsId, ValidBody, Number;
    forall i | 0 <= i < |entries| ensures entries[i].id != e.id {
      assert IdNumber(x, entries[i].id) < IdNumber(x, e.id);
    }
  }

  // ---- the context ----

  function Rank(kind: string): int {
    if kind == "constraint" then 0 else if kind == "decision" then 1 else if kind == "fact" then 2 else 3
  }

  function OfKind(entries: seq<Entry>, kind: string): seq<Entry> {
    if entries == [] then []
    else
      var last := entries[|entries| - 1];
      OfKind(entries[..|entries| - 1], kind) + if last.kind == kind then [last] else []
  }

  function Ordered(entries: seq<Entry>): seq<Entry> {
    OfKind(entries, "constraint") + OfKind(entries, "decision") + OfKind(entries, "fact")
  }

  function Line(x: Text, e: Entry): string {
    "- [" + e.kind + " | " + e.id + "] text=" + x.quote(e.text) + "\n"
  }

  function Lines(x: Text, chosen: seq<Entry>): string {
    if chosen == [] then "" else Lines(x, chosen[..|chosen| - 1]) + Line(x, chosen[|chosen| - 1])
  }

  /** The entries taken, going through them in order: each that still fits, up to the limit. */
  function Greedy(x: Text, entries: seq<Entry>, used: nat, maxChars: nat, maxEntries: nat): seq<Entry> {
    if entries == [] then []
    else
      var e := entries[|entries| - 1];
      var before := Greedy(x, entries[..|entries| - 1], used, maxChars, maxEntries);
      if |before| >= maxEntries || used + |Lines(x, before)| + |Line(x, e)| > maxChars then before else before + [e]
  }

  datatype Context = Context(text: string, entries: nat) | BadLimits | Unreadable

  lemma GreedyNext(x: Text, entries: seq<Entry>, k: nat, used: nat, maxChars: nat, maxEntries: nat)
    requires k < |entries|
    ensures var e, before := entries[k], Greedy(x, entries[..k], used, maxChars, maxEntries);
            Greedy(x, entries[..k + 1], used, maxChars, maxEntries) ==
            if |before| >= maxEntries || used + |Lines(x, before)| + |Line(x, e)| > maxChars then before
            else before + [e]
  {
    assert entries[..k + 1][..k] == entries[..k];
  }

  lemma NothingTaken(x: Text, used: nat, maxChars: nat, maxEntries: nat)
    ensures Greedy(x, [], used, maxChars, maxEntries) == [] && Lines(x, []) == ""
  {
  }

  lemma LinesLast(x: Text, chosen: seq<Entry>, e: Entry)
    ensures Lines(x, chosen + [e]) == Lines(x, chosen) + Line(x, e)
  {
    assert (chosen + [e])[..|chosen|] == chosen;
  }

  method BuildMemoryContext(x: Text, entries: seq<Entry>, header: string, maxChars: int, maxEntries: int)
    returns (r: Context)
    ensures r.BadLimits? <==> !(1 <= maxChars <= 4000 && 1 <= maxEntries <= 50)
    ensures r.Unreadable? <==> !r.BadLimits? && !ValidDocument(x, entries)
    ensures r.Context? ==>
              var chosen := Greedy(x, Ordered(entries), |header|, maxChars, maxEntries);
              && r.entries == |chosen|
              && r.text == if chosen == [] then "" else RStrip(header + Lines(x, chosen))
  {
    hide Line, Ordered, ValidDocument, RStrip, Greedy, Lines;
    if !(1 <= maxChars <= MAX_CONTEXT_CHARS) || !(1 <= maxEntries <= MAX_CONTEXT_ENTRIES) { return BadLimits; }
    var ok := ValidateDocument(x, entries);
    if !ok { return Unreadable; }
    var ordered := Ordered(entries);
    NothingTaken(x, |header|, maxChars, maxEntries);
    if ordered == [] { return Context("", 0); }
    var context, included := header, 0;
    ghost var chosen: seq<Entry> := [];
    assert header + "" == header && ordered[..0] == [];
    var k := 0;
    while k < |ordered|
      invariant 0 <= k <= |ordered| && chosen == Greedy(x, ordered[..k], |header|, maxChars, maxEntries)
      invariant included == |chosen| && context == header + Lines(x, chosen)
    {
      if included >= maxEntries { break; }
      var line := Line(x, ordered[k]);
      GreedyNext(x, ordered, k, |header|, maxChars, maxEntries);
      LinesLast(x, chosen, ordered[k]);
      if |context| + |line| <= maxChars {
        context := context + line;
        included := included + 1;
        chosen := chosen + [ordered[k]];
      }
      k := k + 1;
    }
    GreedyStops(x, ordered, k, |header|, maxChars, maxEntries);
    return Context(if included > 0 then RStrip(context) else "", included);
  }

  lemma {:induction false} GreedyStops(x: Text, entries: seq<Entry>, k: nat, used: nat, maxChars: nat, maxEntries: nat)
    requires k <= |entries|
    requires k < |entries| ==> |Greedy(x, entries[..k], used, maxChars, maxEntries)| >= maxEntries
    ensures Greedy(x, entries, used, maxChars, maxEntries) == Greedy(x, entries[..k], used, maxChars, maxEntries)
    decreases |entries|
  {
    if k == |entries| {
      assert entries[..k] == entries;
    } else {
      assert entries[..|entries| - 1][..k] == entries[..k];
      GreedyStops(x, entries[..|entries| - 1], k, used, maxChars, maxEntries);
    }
  }

  predicate Subsequence(part: seq<Entry>, whole: seq<Entry>) {
    part == [] ||
    (whole != [] &&
     (|| (part[|part| - 1] == whole[|whole| - 1] && Subsequence(part[..|part| - 1], whole[..|whole| - 1]))
      || Subsequence(part, whole[..|whole| - 1])))
  }

  ghost predicate InKindOrder(entries: seq<Entry>) {
    forall i, j :: 0 <= i < j < |entries| ==> Rank(entries[i].kind) <= Rank(entries[j].kind)
  }

  function Rest(entries: seq<Entry>): seq<Entry>
    requires entries != []
  {
    entries[..|entries| - 1]
  }

  lemma {:induction false} GreedyFits(x: Text, entries: seq<Entry>, used: nat, maxChars: nat, maxEntries: nat)
    ensures var g := Greedy(x, entries, used, maxChars, maxEntries);
            && |g| <= maxEntries && (g != [] ==> used + |Lines(x, g)| <= maxChars) && Subsequence(g, entries)
    decreases |entries|
  {
    hide Line, Lines;
    if entries != [] {
      var e, before := entries[|entries| - 1], Greedy(x, Rest(entries), used, maxChars, maxEntries);
      GreedyFits(x, Rest(entries), used, maxChars, maxEntries);
      LinesLast(x, before, e);
      assert (before + [e])[..|before|] == before;
    }
  }

  /** While the entry limit is not reached, what was left out does not fit beside what was
      chosen: the rest of the space only shrinks. */
  lemma {:induction false} GreedyLeavesNoRoom(
    x: Text, entries: seq<Entry>, used: nat, maxChars: nat, maxEntries: nat, e: Entry)
    requires e in entries && |Greedy(x, entries, used, maxChars, maxEntries)| < maxEntries
    requires e !in Greedy(x, entries, used, maxChars, maxEntries)
    ensures used + |Lines(x, Greedy(x, entries, used, maxChars, maxEntries))| + |Line(x, e)| > maxChars
    decreases |entries|
  {
    hide Line, Lines;
    var last, before := entries[|entries| - 1], Greedy(x, Rest(entries), used, maxChars, maxEntries);
    assert entries == Rest(entries) + [last];
    LinesLast(x, before, last);
    if e in Rest(entries) { GreedyLeavesNoRoom(x, Rest(entries), used, maxChars, maxEntries, e); }
  }

  /** What is chosen is a subsequence within both limits; as long as the entry limit is not
      reached, no entry left out would still fit beside what was chosen. */
  lemma GreedyIsMaximal(x: Text, entries: seq<Entry>, used: nat, maxChars: nat, maxEntries: nat)
    ensures var g := Greedy(x, entries, used, maxChars, maxEntries);
            && |g| <= maxEntries && (g != [] ==> used + |Lines(x, g)| <= maxChars) && Subsequence(g, entries)
            && (|g| < maxEntries ==>
                 forall e :: e in entries && e !in g ==> used + |Lines(x, g)| + |Line(x, e)| > maxChars)
  {
    hide Line, Lines, Greedy, Subsequence;
    GreedyFits(x, entries, used, maxChars, maxEntries);
    var g := Greedy(x, entries, used, maxChars, maxEntries);
    if |g| < maxEntries {
      forall e | e in entries && e !in g ensures used + |Lines(x, g)| + |Line(x, e)| > maxChars {
        GreedyLeavesNoRoom(x, entries, used, maxChars, maxEntries, e);
      }
    }
  }

  lemma {:induction false} SubsequenceKeepsOrder(part: seq<Entry>, whole: seq<Entry>)
    requires Subsequence(part, whole) && InKindOrder(whole)
    ensures InKindOrder(part) && forall e :: e in part ==> e in whole
    decreases |whole|
  {
    hide Rank;
    if part != [] {
      var n, k := |whole| - 1, |part| - 1;
      if Subsequence(part, whole[..n]) {
        SubsequenceKeepsOrder(part, whole[..n]);
      } else {
        SubsequenceKeepsOrder(part[..k], whole[..n]);
        forall i | 0 <= i < k ensures Rank(part[i].kind) <= Rank(part[k].kind) {
          assert part[i] in part[..k];
          var j :| 0 <= j < n && whole[..n][j] == part[i];
          assert whole[j] == part[i];
        }
        assert part == part[..k] + [part[k]];
      }
    }
  }

  lemma {:induction false} OfKindSelects(entries: seq<Entry>, kind: string)
    ensures forall e :: e in OfKind(entries, kind) <==> e in entries && e.kind == kind
    decreases |entries|
  {
    if entries != [] {
      OfKindSelects(entries[..|entries| - 1], kind);
      assert entries == entries[..|entries| - 1] + [entries[|entries| - 1]];
    }
  }

  /** All entries of a valid document, constraints first, then decisions, then facts. */
  lemma OrderedIsByKind(x: Text, entries: seq<Entry>)
    requires ValidDocument(x, entries)
    ensures InKindOrder(Ordered(entries)) && forall e :: e in Ordered(entries) <==> e in entries
  {
    var c, d, f := OfKind(entries, "constraint"), OfKind(entries, "decision"), OfKind(entries, "fact");
    OfKindSelects(entries, "constraint");
    OfKindSelects(entries, "decision");
    OfKindSelects(entries, "fact");
    KindGroups(c, d, f);
    forall e | e in entries ensures e in c || e in d || e in f {
      var i :| 0 <= i < |entries| && entries[i] == e;
      assert ValidBody(entries[i]);
    }
  }

  function IfKind(e: Entry, kind: string): seq<Entry> { if e.kind == kind then [e] else [] }

  lemma OfKindLast(entries: seq<Entry>, e: Entry, kind: string)
    ensures OfKind(entries + [e], kind) == OfKind(entries, kind) + IfKind(e, kind)
  {
    assert (entries + [e])[..|entries|] == entries;
  }

  lemma SplitLast(some: seq<Entry>, more: seq<Entry>)
    requires more != []
    ensures var rest, last := more[..|more| - 1], more[|more| - 1];
            more == rest + [last] && some + more == some + rest + [last]
  {
  }

  lemma Regrouped(a: seq<Entry>, b: seq<Entry>, c: seq<Entry>)
    ensures a + (b + c) == a + b + c
  {
  }

  /** Selecting by kind keeps order and multiplicity. */
  lemma {:induction false} OfKindJoins(some: seq<Entry>, more: seq<Entry>, kind: string)
    ensures OfKind(some + more, kind) == OfKind(some, kind) + OfKind(more, kind)
    decreases |more|
  {
    if more == [] {
      assert some + more == some;
    } else {
      var rest, last := more[..|more| - 1], more[|more| - 1];
      OfKindJoins(some, rest, kind);
      OfKindLast(some + rest, last, kind);
      OfKindLast(rest, last, kind);
      hide OfKind, IfKind;
      SplitLast(some, more);
      Regrouped(OfKind(some, kind), OfKind(rest, kind), IfKind(last, kind));
    }
  }

  lemma {:induction false} OfKindTwice(entries: seq<Entry>, kind: string, other: string)
    ensures OfKind(OfKind(entries, kind), other) == if other == kind then OfKind(entries, kind) else []
    decreases |entries|
  {
    if entries != [] {
      var rest, last := entries[..|entries| - 1], entries[|entries| - 1];
      OfKindTwice(rest, kind, other);
      OfKindLast(OfKind(rest, kind), last, other);
      assert OfKind(rest, kind) + [] == OfKind(rest, kind);
    }
  }

  /** Putting the kinds in order moves no entry past another of its kind, and loses none. */
  lemma OrderedKeepsKinds(entries: seq<Entry>, kind: string)
    requires kind == "decision" || kind == "fact" || kind == "constraint"
    ensures OfKind(Ordered(entries), kind) == OfKind(entries, kind)
  {
    KindsDiffer();
    OfKindJoins(OfKind(entries, "constraint") + OfKind(entries, "decision"), OfKind(entries, "fact"), kind);
    OfKindJoins(OfKind(entries, "constraint"), OfKind(entries, "decision"), kind);
    OfKindTwice(entries, "constraint", kind);
    OfKindTwice(entries, "decision", kind);
    OfKindTwice(entries, "fact", kind);
    hide OfKind;
  }

  lemma KindsDiffer()
    ensures "decision" != "fact" && "decision" != "constraint" && "fact" != "constraint"
  {
    assert "decision"[0] == 'd' && "fact"[0] == 'f' && "constraint"[0] == 'c';
  }

  lemma KindGroups(c: seq<Entry>, d: seq<Entry>, f: seq<Entry>)
    requires forall e :: e in c ==> Rank(e.kind) == 0
    requires forall e :: e in d ==> Rank(e.kind) == 1
    requires forall e :: e in f ==> Rank(e.kind) == 2
    ensures InKindOrder(c + d + f) && forall e :: e in c + d + f <==> e in c || e in d || e in f
  {
    hide Rank;
    var all := c + d + f;
    forall i | 0 <= i < |all|
      ensures Rank(all[i].kind) == if i < |c| then 0 else if i < |c| + |d| then 1 else 2
    {
      if i < |c| { assert all[i] in c; }
      else if i < |c| + |d| { assert all[i] in d; }
      else { assert all[i] in f; }
    }
  }

  /** What the line of an entry shows, and where. */
  lemma LineShows(x: Text, e: Entry)
    ensures var line, quoted := Line(x, e), x.quote(e.text);
            var k := 3 + |e.kind|;
            var i := k + 3 + |e.id|;
            && |line| == i + 7 + |quoted| + 1
            && line[..3] == "- [" && line[3..k] == e.kind && line[k..k + 3] == " | " && line[k + 3..i] == e.id
            && line[i..i + 7] == "] text=" && line[i + 7..i + 7 + |quoted|] == quoted && line[|line| - 1] == '\n'
  {
  }

  /** The lines of a context come one after the other. */
  lemma {:induction false} LinesJoin(x: Text, some: seq<Entry>, more: seq<Entry>)
    ensures Lines(x, some + more) == Lines(x, some) + Lines(x, more)
    ensures forall e :: Lines(x, [e]) == Line(x, e)
    decreases |more|
  {
    hide Line;
    forall e ensures Lines(x, [e]) == Line(x, e) {
      assert [e][..0] == [];
    }
    if more == [] {
      assert some + more == some;
    } else {
      assert (some + more)[..|some + more| - 1] == some + more[..|more| - 1];
      LinesJoin(x, some, more[..|more| - 1]);
    }
  }

  /** The context built from a valid document: in kind order, within both limits, and no entry
      left out would still fit unless the entry limit was reached. */
  lemma ContextIsMaximal(x: Text, entries: seq<Entry>, header: string, maxChars: nat, maxEntries: nat)
    requires ValidDocument(x, entries)
    ensures var g := Greedy(x, Ordered(entries), |header|, maxChars, maxEntries);
            && InKindOrder(g) && |g| <= maxEntries && (forall e :: e in g ==> e in entries)
            && (g != [] ==> |RStrip(header + Lines(x, g))| <= |header + Lines(x, g)| <= maxChars)
            && (|g| < maxEntries ==>
                 forall e :: e in entries && e !in g ==> |header + Lines(x, g)| + |Line(x, e)| > maxChars)
  {
    hide Line, Ordered, IsId, ValidBody, Rank;
    var g := Greedy(x, Ordered(entries), |header|, maxChars, maxEntries);
    OrderedIsByKind(x, entries);
    GreedyIsMaximal(x, Ordered(entries), |header|, maxChars, maxEntries);
    SubsequenceKeepsOrder(g, Ordered(entries));
  }
}
