/** What repair makes of every trace file, and how far a scan reads and what it counts
    (core/state_integrity.py:501-537, 729-883, core/execution_trace.py:855-915). */
module ScanOutcomes {
  import opened Options
  import opened TraceLines
  import opened TraceRepair
  import opened TraceStore
  import opened TraceScan
  import opened TraceFiles

  // ---- repair ----

  /** The last line is not ended by a newline. */
  predicate Unended(s: Bytes) { |s| > 0 && s[|s| - 1] != '\n' }

  /** A line that is not blank, is too long or cannot be parsed, and is not the unended last one. */
  ghost predicate HasBadLine<T>(c: Codec<T>, s: Bytes) {
    var lines := SplitLines(s);
    exists k :: 0 <= k < |lines| && !Blank(lines[k]) && (|lines[k]| > 262_144 || c.parse(lines[k]).None?)
      && (Unended(s) ==> k + 1 < |lines|)
  }

  /** The fate of every file, by its size, its lines and the steps that fail. */
  lemma FateIs<T>(
    c: Codec<T>, s: Bytes, i: nat, maximum: nat, q: Quarantine, digest: Bytes -> nat, faults: set<(nat, RepairOp)>)
    ensures FateOf(c, None, i, maximum, q, digest, faults) == Missing
    ensures var name, rewrites := (i, digest(s)), (i, Rewrite) !in faults;
            FateOf(c, Some(s), i, maximum, q, digest, faults) ==
            if |s| > maximum then if (i, MoveToQuarantine) in faults then NotQuarantined else MovedAway
            else if |SplitKeep(s)| > 1000 then TooManyLines
            else if HasBadLine(c, s) then
              if (name in q && q[name] != s) || (name !in q && (i, CopyToQuarantine) in faults) then NotQuarantined
              else if rewrites then Replaced else NotRewritten
            else if Unended(s) then if rewrites then Recovered else NotRewritten
            else Sound
  {
    CorruptIsBad(c, s);
    hide SplitLines, SplitKeep, Kept, Render, HasBadLine, Corrupt;
  }

  lemma CorruptIsBad<T>(c: Codec<T>, s: Bytes)
    ensures Corrupt(c, SplitLines(s), Torn(s)) <==> HasBadLine(c, s)
  {
    hide SplitLines, Blank;
  }

  /** What each fate leaves in place of the file. */
  lemma FateLeaves<T>(c: Codec<T>, s: Bytes, maximum: nat, fate: Fate)
    requires |s| <= maximum && |SplitKeep(s)| <= 1000
    ensures FileAfter(c, Some(s), maximum, fate) ==
            if fate == Recovered || fate == Replaced then Some(Render(Kept(c, SplitLines(s))))
            else if fate == MovedAway then None else Some(s)
  {
    hide SplitLines, SplitKeep, Kept, Render, Corrupt;
  }

  // ---- scan ----

  /** What a scan comes across: a file, a file over the limit, and a line. */
  datatype Item = Opened | TooLarge | Line(text: Bytes)

  function LinesUp(lines: seq<Bytes>): seq<Item> {
    if lines == [] then [] else [Line(lines[|lines| - 1])] + LinesUp(lines[..|lines| - 1])
  }

  /** The files from the newest on, each from its last line up. */
  function Items(store: seq<Option<Bytes>>, maximum: nat): seq<Item> {
    if store == [] then []
    else (match store[0]
          case None => []
          case Some(s) => [Opened] + if |s| > maximum then [TooLarge] else LinesUp(SplitLines(s)))
         + Items(store[1..], maximum)
  }

  /** The records among the lines. */
  function TracesIn<T>(c: Codec<T>, items: seq<Item>): seq<T> {
    if items == [] then []
    else
      var item := items[|items| - 1];
      TracesIn(c, items[..|items| - 1]) +
      if item.Line? && !Blank(item.text) && |item.text| <= 262_144 && c.parse(item.text).Some?
      then [c.parse(item.text).value] else []
  }

  /** The files over the limit, and the lines that are neither blank nor records. */
  function InvalidIn<T>(c: Codec<T>, items: seq<Item>): nat {
    if items == [] then 0
    else
      var item := items[|items| - 1];
      InvalidIn(c, items[..|items| - 1]) +
      match item
      case Opened => 0
      case TooLarge => 1
      case Line(text) => if Blank(text) || (|text| <= 262_144 && c.parse(text).Some?) then 0 else 1
  }

  function OpenedIn(items: seq<Item>): nat {
    if items == [] then 0
    else OpenedIn(items[..|items| - 1]) + if items[|items| - 1] == Opened then 1 else 0
  }

  /** The scan after these items, before its limit. */
  function Counted<T>(c: Codec<T>, items: seq<Item>): Scan<T> {
    Scan(TracesIn(c, items), InvalidIn(c, items), OpenedIn(items), false)
  }

  function ReadItem<T>(c: Codec<T>, acc: Scan<T>, item: Item): Scan<T> {
    match item
    case Opened => acc.(filesScanned := acc.filesScanned + 1)
    case TooLarge => acc.(invalid := acc.invalid + 1)
    case Line(text) => ReadLine(c, acc, text)
  }

  function ScanItems<T>(c: Codec<T>, items: seq<Item>, quota: nat, acc: Scan<T>): Scan<T> {
    if items == [] then acc
    else if items[0].Line? && |acc.traces| >= quota then acc.(limitReached := true)
    else ScanItems(c, items[1..], quota, ReadItem(c, acc, items[0]))
  }

  lemma CountedNext<T>(c: Codec<T>, items: seq<Item>, item: Item)
    ensures Counted(c, items + [item]) == ReadItem(c, Counted(c, items), item)
  {
    hide Blank;
    assert (items + [item])[..|items|] == items;
    assert TracesIn(c, items) + [] == TracesIn(c, items);
  }

  lemma {:induction false} LinesAreItems<T>(c: Codec<T>, lines: seq<Bytes>, rest: seq<Item>, quota: nat, acc: Scan<T>)
    requires !acc.limitReached
    ensures var r := ScanLines(c, lines, quota, acc);
            ScanItems(c, LinesUp(lines) + rest, quota, acc) ==
            if r.limitReached then r else ScanItems(c, rest, quota, r)
    decreases |lines|
  {
    if lines == [] {
      assert LinesUp(lines) + rest == rest;
    } else {
      var n := |lines| - 1;
      var all := LinesUp(lines) + rest;
      assert all[0] == Line(lines[n]) && all[1..] == LinesUp(lines[..n]) + rest;
      if |acc.traces| < quota { LinesAreItems(c, lines[..n], rest, quota, ReadLine(c, acc, lines[n])); }
      hide ReadLine, LinesUp;
    }
  }

  lemma {:induction false} FilesAreItems<T>(
    c: Codec<T>, store: seq<Option<Bytes>>, maximum: nat, quota: nat, acc: Scan<T>)
    requires !acc.limitReached
    ensures ScanFiles(c, store, maximum, quota, acc) == ScanItems(c, Items(store, maximum), quota, acc)
    decreases |store|
  {
    if store != [] {
      var rest := Items(store[1..], maximum);
      var next := ScanFile(c, store[0], maximum, quota, acc);
      FileIsItems(c, store[0], rest, maximum, quota, acc);
      hide ScanFile, SplitLines, LinesUp, ScanItems;
      if !next.limitReached { FilesAreItems(c, store[1..], maximum, quota, next); }
    }
  }

  lemma FileIsItems<T>(
    c: Codec<T>, file: Option<Bytes>, rest: seq<Item>, maximum: nat, quota: nat, acc: Scan<T>)
    requires !acc.limitReached
    ensures var r := ScanFile(c, file, maximum, quota, acc);
            var items := match file
                         case None => []
                         case Some(s) => [Opened] + if |s| > maximum then [TooLarge] else LinesUp(SplitLines(s));
            ScanItems(c, items + rest, quota, acc) == if r.limitReached then r else ScanItems(c, rest, quota, r)
  {
    hide SplitLines, LinesUp, ScanLines;
    match file
    case None => assert [] + rest == rest;
    case Some(s) =>
      var opened_ := acc.(filesScanned := acc.filesScanned + 1);
      if |s| > maximum {
        var all := [Opened] + [TooLarge] + rest;
        assert all[1..] == [TooLarge] + rest && all[1..][1..] == rest;
      } else {
        var all := [Opened] + LinesUp(SplitLines(s)) + rest;
        assert all[1..] == LinesUp(SplitLines(s)) + rest;
        LinesAreItems(c, SplitLines(s), rest, quota, opened_);
      }
  }

  /** A scan reads up to position k. */
  ghost predicate ReadsTo<T>(c: Codec<T>, items: seq<Item>, quota: nat, k: nat) {
    && k <= |items|
    && (forall j :: 0 <= j < k && items[j].Line? ==> |TracesIn(c, items[..j])| < quota)
    && (k < |items| ==> items[k].Line? && |TracesIn(c, items[..k])| >= quota)
  }

  lemma {:induction false} ItemsAreRead<T>(c: Codec<T>, items: seq<Item>, quota: nat, i: nat) returns (k: nat)
    requires i <= |items| && forall j :: 0 <= j < i && items[j].Line? ==> |TracesIn(c, items[..j])| < quota
    ensures ReadsTo(c, items, quota, k)
    ensures ScanItems(c, items[i..], quota, Counted(c, items[..i])) ==
            Counted(c, items[..k]).(limitReached := k < |items|)
    decreases |items| - i
  {
    k := i;
    if i < |items| && !(items[i].Line? && |TracesIn(c, items[..i])| >= quota) {
      assert items[i..][1..] == items[i + 1..] && items[..i + 1] == items[..i] + [items[i]];
      CountedNext(c, items[..i], items[i]);
      assert Counted(c, items[..i]).traces == TracesIn(c, items[..i]);
      hide ReadItem, Counted, TracesIn;
      k := ItemsAreRead(c, items, quota, i + 1);
    } else {
      hide TracesIn, InvalidIn, OpenedIn;
    }
  }

  /** Every scan, whatever the files hold: it reads up to the first line it comes across with its
      quota used up, if there is one, reports the limit exactly then, and counts the files, the
      invalid lines and the files over the limit it has come across by then. */
  lemma ScanReads<T>(c: Codec<T>, store: seq<Option<Bytes>>, maximum: nat, quota: nat) returns (k: nat)
    ensures var items := Items(store, maximum);
            && ReadsTo(c, items, quota, k)
            && ScanFiles(c, store, maximum, quota, Nothing()) ==
               Scan(TracesIn(c, items[..k]), InvalidIn(c, items[..k]), OpenedIn(items[..k]), k < |items|)
  {
    var items := Items(store, maximum);
    FilesAreItems(c, store, maximum, quota, Nothing());
    assert items[..0] == [] && items[0..] == items;
    assert Counted(c, items[..0]) == Nothing();
    k := ItemsAreRead(c, items, quota, 0);
    hide ScanFiles, ScanItems, Items, TracesIn, InvalidIn, OpenedIn, ReadsTo;
  }
}
