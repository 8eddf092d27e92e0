/** The bounded newest-first scan (core/execution_trace.py:855-915). */
module TraceScan {
  import opened Options
  import opened TraceLines
  import opened TraceRepair
  import opened TraceStore

  datatype Scan<+T> = Scan(traces: seq<T>, invalid: nat, filesScanned: nat, limitReached: bool)

  function Reverse<T>(s: seq<T>): seq<T> {
    if s == [] then [] else [s[|s| - 1]] + Reverse(s[..|s| - 1])
  }

  function Take<T>(s: seq<T>, n: nat): seq<T> { if n < |s| then s[..n] else s }

  function ReadLine<T>(c: Codec<T>, acc: Scan<T>, line: Bytes): Scan<T> {
    if Blank(line) then acc
    else if |line| > MAX_TRACE_CHARS then acc.(invalid := acc.invalid + 1)
    else match c.parse(line)
      case Some(t) => acc.(traces := acc.traces + [t])
      case None => acc.(invalid := acc.invalid + 1)
  }

  function ScanLines<T>(c: Codec<T>, lines: seq<Bytes>, quota: nat, acc: Scan<T>): Scan<T> {
    if lines == [] then acc
    else if |acc.traces| >= quota then acc.(limitReached := true)
    else ScanLines(c, lines[..|lines| - 1], quota, ReadLine(c, acc, lines[|lines| - 1]))
  }

  function ScanFile<T>(c: Codec<T>, file: Option<Bytes>, maximum: nat, quota: nat, acc: Scan<T>): Scan<T> {
    match file
    case None => acc
    case Some(s) =>
      var opened_ := acc.(filesScanned := acc.filesScanned + 1);
      if |s| > maximum then opened_.(invalid := acc.invalid + 1)
      else ScanLines(c, SplitLines(s), quota, opened_)
  }

  function ScanFiles<T>(c: Codec<T>, store: seq<Option<Bytes>>, maximum: nat, quota: nat, acc: Scan<T>): Scan<T> {
    if store == [] || acc.limitReached then acc
    else ScanFiles(c, store[1..], maximum, quota, ScanFile(c, store[0], maximum, quota, acc))
  }

  function Nothing<T>(): Scan<T> { Scan([], 0, 0, false) }

  method ScanTraceStore<T>(c: Codec<T>, store: seq<Option<Bytes>>, maximum: nat, quota: nat)
    returns (result: Scan<T>)
    ensures result == ScanFiles(c, store, maximum, quota, Nothing())
  {
    result := Nothing();
    var i := 0;
    while i < |store| && !result.limitReached
      invariant 0 <= i <= |store|
      invariant ScanFiles(c, store, maximum, quota, Nothing()) == ScanFiles(c, store[i..], maximum, quota, result)
    {
      ghost var before := result;
      if store[i].Some? {
        result := result.(filesScanned := result.filesScanned + 1);
        if |store[i].value| > maximum {
          result := result.(invalid := result.invalid + 1);
        } else {
          result := ReadLines(c, SplitLines(store[i].value), quota, result);
        }
      }
      assert result == ScanFile(c, store[i], maximum, quota, before);
      assert store[i..][1..] == store[i + 1..];
      i := i + 1;
    }
  }

  method ReadLines<T>(c: Codec<T>, lines: seq<Bytes>, quota: nat, start: Scan<T>) returns (result: Scan<T>)
    ensures result == ScanLines(c, lines, quota, start)
  {
    result := start;
    assert lines[..|lines|] == lines;
    for left := |lines| downto 0
      invariant ScanLines(c, lines, quota, start) == ScanLines(c, lines[..left], quota, result)
    {
      assert lines[..left + 1][..left] == lines[..left];
      if |result.traces| >= quota {
        return result.(limitReached := true);
      }
      var line := lines[left];
      if Blank(line) {
      } else if |line| > MAX_TRACE_CHARS {
        result := result.(invalid := result.invalid + 1);
      } else {
        match c.parse(line)
        case Some(t) => result := result.(traces := result.traces + [t]);
        case None => result := result.(invalid := result.invalid + 1);
      }
    }
  }

  // ---- what a scan returns ----

  function NewestIn<T>(c: Codec<T>, file: Option<Bytes>, maximum: nat): seq<T> {
    if file.Some? && |file.value| <= maximum then Reverse(Records(c, file.value)) else []
  }

  /** The valid records of the readable files, newest first. */
  function Newest<T>(c: Codec<T>, store: seq<Option<Bytes>>, maximum: nat): seq<T> {
    if store == [] then [] else NewestIn(c, store[0], maximum) + Newest(c, store[1..], maximum)
  }

  lemma {:induction false} ReverseAppend<T>(a: seq<T>, b: seq<T>)
    ensures Reverse(a + b) == Reverse(b) + Reverse(a)
    ensures |Reverse(a)| == |a|
    decreases |a| + |b|
  {
    if b == [] {
      assert a + b == a;
      if a != [] { ReverseAppend(a[..|a| - 1], []); }
    } else {
      assert (a + b)[..|a + b| - 1] == a + b[..|b| - 1];
      ReverseAppend(a, b[..|b| - 1]);
    }
  }

  /** Reading the last line takes the newest of the records the lines hold. */
  lemma ReadLineTakes<T>(c: Codec<T>, lines: seq<Bytes>, acc: Scan<T>)
    requires lines != []
    ensures var n := |lines| - 1;
            var next := ReadLine(c, acc, lines[n]);
            var older, all := Reverse(Parsed(c, Kept(c, lines[..n]))), Reverse(Parsed(c, Kept(c, lines)));
            && next.traces + older == acc.traces + all
            && |next.traces| <= |acc.traces| + 1 && |all| <= |older| + 1
            && (Keep(c, lines[n]) ==> |all| == |older| + 1)
            && next.filesScanned == acc.filesScanned && next.limitReached == acc.limitReached
            && (!Bad(c, lines[n]) ==> next.invalid == acc.invalid)
  {
    hide Blank;
    var n := |lines| - 1;
    var kept := Kept(c, lines[..n]);
    var older := Reverse(Parsed(c, kept));
    if Keep(c, lines[n]) {
      var t := c.parse(lines[n]).value;
      assert (kept + [lines[n]])[..|kept|] == kept;
      assert Parsed(c, kept + [lines[n]]) == Parsed(c, kept) + [t];
      ReverseAppend(Parsed(c, kept), [t]);
      assert Reverse([t]) == [t];
      assert acc.traces + ([t] + older) == (acc.traces + [t]) + older;
    } else {
      assert kept + [] == kept;
    }
  }

  lemma {:induction false} ScanLinesTakes<T>(c: Codec<T>, lines: seq<Bytes>, quota: nat, acc: Scan<T>)
    requires !acc.limitReached && |acc.traces| <= quota
    ensures var r := ScanLines(c, lines, quota, acc);
            var all := acc.traces + Reverse(Parsed(c, Kept(c, lines)));
            && r.traces == Take(all, quota) && |r.traces| <= quota
            && r.filesScanned == acc.filesScanned
            && (if r.limitReached then |r.traces| == quota else |all| <= quota)
            && ((forall l :: l in lines ==> !Bad(c, l)) ==> r.invalid == acc.invalid)
            && ((forall l :: l in lines ==> Keep(c, l)) ==> (r.limitReached <==> |all| > quota))
    decreases |lines|
  {
    hide ReadLine, Keep, Bad;
    if lines != [] {
      hide Reverse, Parsed, Kept;
      var n := |lines| - 1;
      assert lines[n] in lines;
      assert forall l :: l in lines[..n] ==> l in lines;
      ReadLineTakes(c, lines, acc);
      if |acc.traces| < quota { ScanLinesTakes(c, lines[..n], quota, ReadLine(c, acc, lines[n])); }
    } else {
      assert acc.traces + [] == acc.traces;
    }
  }

  lemma ScanFileTakes<T>(c: Codec<T>, file: Option<Bytes>, maximum: nat, quota: nat, acc: Scan<T>)
    requires !acc.limitReached && |acc.traces| <= quota
    ensures var r := ScanFile(c, file, maximum, quota, acc);
            var all := acc.traces + NewestIn(c, file, maximum);
            && r.traces == Take(all, quota) && |r.traces| <= quota
            && (if r.limitReached then |r.traces| == quota else |all| <= quota)
  {
    if file.Some? && |file.value| <= maximum {
      ScanLinesTakes(c, SplitLines(file.value), quota, acc.(filesScanned := acc.filesScanned + 1));
    } else {
      assert acc.traces + [] == acc.traces;
    }
  }

  /** Whatever the files hold, a scan returns the newest valid records up to its quota, and
      reports a limit only when the quota is used up. */
  lemma {:induction false} ScanReturnsNewest<T>(
    c: Codec<T>, store: seq<Option<Bytes>>, maximum: nat, quota: nat, acc: Scan<T>)
    requires !acc.limitReached && |acc.traces| <= quota
    ensures var r := ScanFiles(c, store, maximum, quota, acc);
            var all := acc.traces + Newest(c, store, maximum);
            && r.traces == Take(all, quota)
            && (if r.limitReached then |r.traces| == quota else |all| <= quota)
    decreases |store|
  {
    hide ScanFile, NewestIn;
    if store == [] {
      assert acc.traces + [] == acc.traces;
    } else {
      var next := ScanFile(c, store[0], maximum, quota, acc);
      ScanFileTakes(c, store[0], maximum, quota, acc);
      var one, rest := NewestIn(c, store[0], maximum), Newest(c, store[1..], maximum);
      assert acc.traces + (one + rest) == (acc.traces + one) + rest;
      if !next.limitReached { ScanReturnsNewest(c, store[1..], maximum, quota, next); }
    }
  }

  /** Every file is readable and every line a valid record. */
  ghost predicate Clean<T>(c: Codec<T>, store: seq<Option<Bytes>>, maximum: nat) {
    forall i :: 0 <= i < |store| && store[i].Some? ==>
      |store[i].value| <= maximum && forall l :: l in SplitLines(store[i].value) ==> Keep(c, l)
  }

  /** On a clean store nothing is invalid, and the limit is reported exactly when a record was
      left unread. */
  lemma {:induction false} CleanScan<T>(
    c: Codec<T>, store: seq<Option<Bytes>>, maximum: nat, quota: nat, acc: Scan<T>)
    requires Clean(c, store, maximum) && !acc.limitReached && |acc.traces| <= quota
    ensures var r := ScanFiles(c, store, maximum, quota, acc);
            && r.invalid == acc.invalid
            && (r.limitReached <==> |acc.traces| + |Newest(c, store, maximum)| > quota)
    decreases |store|
  {
    if store != [] {
      if store[0].Some? {
        var lines := SplitLines(store[0].value);
        ScanLinesTakes(c, lines, quota, acc.(filesScanned := acc.filesScanned + 1));
      }
      var next := ScanFile(c, store[0], maximum, quota, acc);
      forall i | 0 <= i < |store[1..]| && store[1..][i].Some?
        ensures |store[1..][i].value| <= maximum
        ensures forall l :: l in SplitLines(store[1..][i].value) ==> Keep(c, l)
      {
        assert store[i + 1] == store[1..][i];
      }
      if !next.limitReached { CleanScan(c, store[1..], maximum, quota, next); }
    }
  }

  /** Every file is readable and no line is invalid; blank lines may remain. */
  ghost predicate Faultless<T>(c: Codec<T>, store: seq<Option<Bytes>>, maximum: nat) {
    forall i :: 0 <= i < |store| && store[i].Some? ==>
      |store[i].value| <= maximum && forall l :: l in SplitLines(store[i].value) ==> !Bad(c, l)
  }

  lemma {:induction false} FaultlessScan<T>(
    c: Codec<T>, store: seq<Option<Bytes>>, maximum: nat, quota: nat, acc: Scan<T>)
    requires Faultless(c, store, maximum) && |acc.traces| <= quota
    ensures ScanFiles(c, store, maximum, quota, acc).invalid == acc.invalid
    decreases |store|
  {
    if store != [] && !acc.limitReached {
      if store[0].Some? {
        ScanLinesTakes(c, SplitLines(store[0].value), quota, acc.(filesScanned := acc.filesScanned + 1));
      }
      forall i | 0 <= i < |store[1..]| && store[1..][i].Some?
        ensures |store[1..][i].value| <= maximum
        ensures forall l :: l in SplitLines(store[1..][i].value) ==> !Bad(c, l)
      {
        assert store[i + 1] == store[1..][i];
      }
      FaultlessScan(c, store[1..], maximum, quota, ScanFile(c, store[0], maximum, quota, acc));
    }
  }

  // ---- scanning a store that refines a history ----

  /** The files a scan looks at: the active one and the newest backups. */
  function View(files: Files, count: nat): seq<Option<Bytes>> {
    seq(count, (i: nat) => Lookup(files, i))
  }

  function Lookup(files: Files, i: nat): Option<Bytes> { if i in files then Some(files[i]) else None }

  lemma {:induction false} NewestAppend<T>(
    c: Codec<T>, store: seq<Option<Bytes>>, last: Option<Bytes>, maximum: nat)
    ensures Newest(c, store + [last], maximum) == Newest(c, store, maximum) + NewestIn(c, last, maximum)
    decreases |store|
  {
    hide NewestIn;
    if store == [] {
      assert store + [last] == [last];
    } else {
      NewestAppend(c, store[1..], last, maximum);
      assert (store + [last])[1..] == store[1..] + [last];
    }
  }

  lemma NewestOfOne<T>(c: Codec<T>, files: Files, i: nat, maximum: nat)
    requires Fits(files, maximum)
    ensures NewestIn(c, Lookup(files, i), maximum) == Reverse(FileRecords(c, files, i))
  {
  }

  lemma ViewLast(files: Files, count: nat)
    ensures View(files, count + 1) == View(files, count) + [Lookup(files, count)]
  {
  }

  lemma {:induction false} NewestOfView<T>(c: Codec<T>, files: Files, count: nat, maximum: nat)
    requires Fits(files, maximum)
    ensures Newest(c, View(files, count), maximum) == Reverse(LogTo(c, files, count))
    decreases count
  {
    if count > 0 {
      hide NewestIn, Lookup, Reverse, FileRecords, View;
      var newer := View(files, count - 1);
      NewestOfView(c, files, count - 1, maximum);
      ViewLast(files, count - 1);
      NewestAppend(c, newer, Lookup(files, count - 1), maximum);
      NewestOfOne(c, files, count - 1, maximum);
      ReverseAppend(FileRecords(c, files, count - 1), LogTo(c, files, count - 1));
    }
  }

  lemma {:induction false} LogPrefixIsSuffix<T>(c: Codec<T>, files: Files, count: nat, n: nat)
    requires count <= n
    ensures Suffix(LogTo(c, files, count), LogTo(c, files, n))
    decreases n
  {
    if count < n {
      LogPrefixIsSuffix(c, files, count, n - 1);
      SuffixOfConcat(FileRecords(c, files, n - 1), LogTo(c, files, n - 1));
      SuffixOfSuffix(LogTo(c, files, count), LogTo(c, files, n - 1), LogTo(c, files, n));
    }
  }

  lemma ReverseOfSuffix<T>(part: seq<T>, whole: seq<T>)
    requires Suffix(part, whole)
    ensures Reverse(part) == Take(Reverse(whole), |part|)
  {
    var k := |whole| - |part|;
    assert whole == whole[..k] + part;
    ReverseAppend(whole[..k], part);
    ReverseAppend(part, []);
    assert |Reverse(part)| == |part|;
  }

  lemma WellFormedLinesKept<T(!new)>(c: Codec<T>, s: Bytes)
    requires Lawful(c) && WellFormed(c, s)
    ensures forall l :: l in SplitLines(s) ==> Keep(c, l)
  {
    var ts := Records(c, s);
    var payloads := Printed(c, ts);
    forall p | p in payloads ensures LineFree(p) && Keep(c, p) {
      var i :| 0 <= i < |payloads| && p == payloads[i];
      assert ts[i] in ts;
      assert p == c.encode(ts[i]);
    }
    SplitRendered(payloads);
  }

  lemma RefiningViewIsClean<T(!new)>(
    c: Codec<T>, files: Files, backups: nat, history: seq<T>, maximum: nat, scanned: nat)
    requires Lawful(c) && Refines(c, files, backups, history) && Fits(files, maximum)
    ensures Clean(c, View(files, scanned), maximum)
  {
    var store := View(files, scanned);
    forall i | 0 <= i < |store| && store[i].Some?
      ensures |store[i].value| <= maximum
      ensures forall l :: l in SplitLines(store[i].value) ==> Keep(c, l)
    {
      assert store[i] == Lookup(files, i);
      WellFormedLinesKept(c, files[i]);
    }
  }

  lemma ScannedLog<T(!new)>(c: Codec<T>, files: Files, backups: nat, history: seq<T>, maximum: nat, scanned: nat)
    requires Refines(c, files, backups, history) && Fits(files, maximum) && scanned <= backups + 1
    ensures var log := LogTo(c, files, scanned);
            Suffix(log, history) && Newest(c, View(files, scanned), maximum) == Take(Reverse(history), |log|)
  {
    NewestOfView(c, files, scanned, maximum);
    LogPrefixIsSuffix(c, files, scanned, backups + 1);
    SuffixOfSuffix(LogTo(c, files, scanned), LogTo(c, files, backups + 1), history);
    ReverseOfSuffix(LogTo(c, files, scanned), history);
  }

  /** A scan of a store that refines a history returns the newest part of that history,
      newest first: as many records as the quota and the scanned files allow. */
  lemma ScanRefinesHistory<T(!new)>(
    c: Codec<T>, files: Files, backups: nat, history: seq<T>, maximum: nat, scanned: nat, quota: nat)
    requires Lawful(c) && Refines(c, files, backups, history) && Fits(files, maximum)
    requires scanned <= backups + 1
    ensures var r := ScanFiles(c, View(files, scanned), maximum, quota, Nothing());
            var held := |LogTo(c, files, scanned)|;
            && r.traces == Take(Reverse(history), if quota < held then quota else held)
            && r.invalid == 0
            && (r.limitReached <==> quota < held)
            && Suffix(LogTo(c, files, scanned), history)
  {
    var store := View(files, scanned);
    var newest := Newest(c, store, maximum);
    ScanReturnsNewest(c, store, maximum, quota, Nothing());
    assert [] + newest == newest;
    ScannedLog(c, files, backups, history, maximum, scanned);
    RefiningViewIsClean(c, files, backups, history, maximum, scanned);
    CleanScan(c, store, maximum, quota, Nothing());
    ReverseAppend(history, []);
    TakeTake(Reverse(history), |LogTo(c, files, scanned)|, quota);
  }

  lemma TakeTake<T>(s: seq<T>, m: nat, n: nat)
    requires m <= |s|
    ensures |Take(s, m)| == m && Take(Take(s, m), n) == Take(s, if n < m then n else m)
  {
  }

  function LoadLatest<T>(c: Codec<T>, files: Files, scanned: nat, maximum: nat, quota: nat): Option<T> {
    var r := ScanFiles(c, View(files, scanned), maximum, quota, Nothing());
    if r.traces == [] then None else Some(r.traces[0])
  }

  lemma FittingLineIsLatest<T(!new)>(
    c: Codec<T>, files: Files, backups: nat, maximum: nat, t: T, fault: Fault, history: seq<T>,
    scanned: nat, quota: nat)
    requires Lawful(c) && Refines(c, files, backups, history) && Fits(files, maximum)
    requires Recorded(c, files, backups, maximum, t, fault) && |c.encode(t)| + 1 <= maximum
    requires 1 <= scanned <= backups + 1 && 1 <= quota
    ensures LoadLatest(c, Append(c, files, backups, maximum, t, fault), scanned, maximum, quota) == Some(t)
  {
    var after := Append(c, files, backups, maximum, t, fault);
    AppendRefines(c, files, backups, maximum, t, fault, history);
    AppendFits(c, files, backups, maximum, t, fault);
    ScanRefinesHistory(c, after, backups, history + [t], maximum, scanned, quota);
    ActiveHoldsLast(c, files, backups, maximum, t, fault);
    ActiveIsScanned(c, after, scanned);
    var held := |LogTo(c, after, scanned)|;
    LastIsFirst(history, t, if quota < held then quota else held);
  }

  lemma ActiveIsScanned<T>(c: Codec<T>, files: Files, scanned: nat)
    requires FileRecords(c, files, 0) != [] && 1 <= scanned
    ensures LogTo(c, files, scanned) != []
  {
    LogPrefixIsSuffix(c, files, 1, scanned);
    assert LogTo(c, files, 1) == FileRecords(c, files, 0) + LogTo(c, files, 0);
  }

  lemma LastIsFirst<T>(history: seq<T>, t: T, n: nat)
    requires n >= 1
    ensures Take(Reverse(history + [t]), n) != [] && Take(Reverse(history + [t]), n)[0] == t
  {
    ReverseAppend(history, [t]);
    assert Reverse([t]) == [t];
  }

  lemma OverlongLineIsSkipped<T(!new)>(
    c: Codec<T>, files: Files, backups: nat, maximum: nat, t: T, fault: Fault, scanned: nat, quota: nat)
    requires Recorded(c, files, backups, maximum, t, fault) && |c.encode(t)| + 1 > maximum
    ensures var after := Append(c, files, backups, maximum, t, fault);
            ScanFiles(c, View(after, scanned), maximum, quota, Nothing()).traces ==
            Take(Newest(c, View(after - {0}, scanned), maximum), quota)
  {
    var after := Append(c, files, backups, maximum, t, fault);
    ScanReturnsNewest(c, View(after, scanned), maximum, quota, Nothing());
    assert after == AppendBytes(RotateSteps(files, backups, backups + 1), c.encode(t) + "\n");
    NewestWithoutActive(c, after, scanned, maximum);
    assert [] + Newest(c, View(after, scanned), maximum) == Newest(c, View(after, scanned), maximum);
  }

  /** Right after a record was appended it is the latest trace if its line fits the file limit
      on its own.  A longer line is written all the same, but then the scan rejects the whole
      active file and sees the backups only. */
  lemma LatestIsLastAppended<T(!new)>(
    c: Codec<T>, files: Files, backups: nat, maximum: nat, t: T, fault: Fault, history: seq<T>,
    scanned: nat, quota: nat)
    requires Lawful(c) && Refines(c, files, backups, history) && Fits(files, maximum)
    requires Recorded(c, files, backups, maximum, t, fault)
    requires 1 <= scanned <= backups + 1 && 1 <= quota
    ensures var after := Append(c, files, backups, maximum, t, fault);
            if |c.encode(t)| + 1 <= maximum then LoadLatest(c, after, scanned, maximum, quota) == Some(t)
            else ScanFiles(c, View(after, scanned), maximum, quota, Nothing()).traces ==
                 Take(Newest(c, View(after - {0}, scanned), maximum), quota)
  {
    if |c.encode(t)| + 1 <= maximum {
      FittingLineIsLatest(c, files, backups, maximum, t, fault, history, scanned, quota);
    } else {
      OverlongLineIsSkipped(c, files, backups, maximum, t, fault, scanned, quota);
    }
  }

  lemma ActiveHoldsLast<T(!new)>(
    c: Codec<T>, files: Files, backups: nat, maximum: nat, t: T, fault: Fault)
    requires Lawful(c) && (forall i :: i in files ==> i <= backups && WellFormed(c, files[i]))
    requires Recorded(c, files, backups, maximum, t, fault)
    ensures FileRecords(c, Append(c, files, backups, maximum, t, fault), 0) != []
  {
    var full := MustRotate(c, files, maximum, t);
    var room := if full then RotateSteps(files, backups, backups + 1) else files;
    StepsLeaveAHole(files, backups, backups + 1);
    EmptyIsWellFormed(c);
    assert Written(c, t, fault) == c.encode(t) + "\n";
    WellFormedAppend(c, Active(room), t);
  }

  lemma NewestWithoutActive<T>(c: Codec<T>, files: Files, count: nat, maximum: nat)
    requires 0 in files && |files[0]| > maximum
    ensures Newest(c, View(files, count), maximum) == Newest(c, View(files - {0}, count), maximum)
  {
    if count > 0 {
      var a, b := View(files, count), View(files - {0}, count);
      assert NewestIn(c, a[0], maximum) == [] == NewestIn(c, b[0], maximum);
      assert a[1..] == b[1..];
    }
  }
}
