/** Crashes, explicit repair and whole runs of the trace store
    (core/execution_trace.py:799-852, core/state_integrity.py:729-883). */
module TraceLog {
  import opened Options
  import opened TraceLines
  import opened TraceRepair
  import opened TraceStore
  import opened TraceScan
  import opened TraceFiles

  // ---- an append cut short ----

  lemma WellFormedLines<T(!new)>(c: Codec<T>, s: Bytes)
    requires Lawful(c) && WellFormed(c, s)
    ensures var payloads := Printed(c, Records(c, s));
            && s == Render(payloads) && forall p :: p in payloads ==> LineFree(p) && Keep(c, p)
  {
    var ts := Records(c, s);
    forall p | p in Printed(c, ts) ensures LineFree(p) && Keep(c, p) {
      var i :| 0 <= i < |ts| && p == c.encode(ts[i]);
      assert ts[i] in ts;
    }
  }

  lemma CutTail<T(!new)>(c: Codec<T>, t: T, length: nat)
    requires Lawful(c) && Recordable(c, t) && length <= |c.encode(t)|
    ensures var tail := c.encode(t)[..length];
            LineFree(tail) && (Keep(c, tail) <==> length == |c.encode(t)|)
  {
    var line := c.encode(t);
    var tail := line[..length];
    assert forall x :: x in tail ==> x in line;
    if length == |line| { assert tail == line; }
  }

  /** A file of valid records followed by some unterminated text. */
  lemma OpenEnded<T>(c: Codec<T>, payloads: seq<Bytes>, tail: Bytes)
    requires forall p :: p in payloads ==> LineFree(p) && Keep(c, p)
    requires LineFree(tail) && tail != ""
    ensures var s := Render(payloads) + tail;
            && SplitLines(s) == payloads + [tail]
            && Kept(c, SplitLines(s)) == payloads + (if Keep(c, tail) then [tail] else [])
            && !Corrupt(c, SplitLines(s), true)
            && Torn(s)
  {
    var s := Render(payloads) + tail;
    SplitRender(payloads, tail);
    KeptOne(c, payloads, tail);
    assert s[|s| - 1] == tail[|tail| - 1] && tail[|tail| - 1] in tail;
    forall i | 0 <= i < |payloads| ensures !Bad(c, (payloads + [tail])[i]) {
      assert payloads[i] in payloads;
    }
  }

  lemma CutLines<T(!new)>(c: Codec<T>, s: Bytes, t: T, length: nat)
    requires Lawful(c) && WellFormed(c, s) && Recordable(c, t) && length <= |c.encode(t)|
    ensures var tail := c.encode(t)[..length];
            var lines := SplitLines(s + tail);
            var payloads := Printed(c, Records(c, s));
            && Kept(c, lines) == payloads + (if length == |c.encode(t)| then [tail] else [])
            && !Corrupt(c, lines, length > 0)
            && (Torn(s + tail) <==> length > 0)
  {
    var payloads := Printed(c, Records(c, s));
    WellFormedLines(c, s);
    CutTail(c, t, length);
    assert c.encode(t) != "" by { assert !Blank(c.encode(t)); }
    if length > 0 {
      OpenEnded(c, payloads, c.encode(t)[..length]);
    } else {
      assert s + c.encode(t)[..length] == s;
      assert payloads + [] == payloads;
      SplitRendered(payloads);
      RenderEnds(payloads);
      KeptAll(c, payloads);
      forall i | 0 <= i < |payloads| ensures !Bad(c, payloads[i]) { assert payloads[i] in payloads; }
    }
  }

  /** Repairing the file left by a cut write drops the partial line and nothing else; a line
      that only lacks its LF is completed instead.  No corruption is reported either way. */
  lemma RepairAfterCut<T(!new)>(c: Codec<T>, s: Bytes, t: T, length: nat)
    requires Lawful(c) && WellFormed(c, s) && Recordable(c, t) && length <= |c.encode(t)|
    ensures var torn := s + c.encode(t)[..length];
            var fixed := Render(Kept(c, SplitLines(torn)));
            && WellFormed(c, fixed)
            && Records(c, fixed) == Records(c, s) + (if length == |c.encode(t)| then [t] else [])
            && !Corrupt(c, SplitLines(torn), Torn(torn))
            && (Torn(torn) <==> length > 0)
  {
    var payloads := Printed(c, Records(c, s));
    CutLines(c, s, t, length);
    if length == |c.encode(t)| {
      var line := c.encode(t);
      assert line[..length] == line;
      WellFormedAppend(c, s, t);
      RenderAppend(payloads, [line]);
      assert Render([line]) == line + "\n" + Render([]);
      assert s + (line + "\n") == Render(payloads + [line]);
    } else {
      assert payloads + [] == payloads;
      assert Records(c, s) + [] == Records(c, s);
    }
  }

  /** Without a repair in between, the next append runs into the partial line: if the two do
      not happen to parse together, the new record is lost to every reader and the file
      counts as corrupt. */
  lemma AppendAfterCutIsLost<T(!new)>(c: Codec<T>, s: Bytes, t: T, length: nat, next: T)
    requires Lawful(c) && WellFormed(c, s) && Recordable(c, t) && Recordable(c, next)
    requires 0 < length < |c.encode(t)|
    requires !Keep(c, c.encode(t)[..length] + c.encode(next))
    ensures var joined := s + c.encode(t)[..length] + (c.encode(next) + "\n");
            Records(c, joined) == Records(c, s) && Corrupt(c, SplitLines(joined), Torn(joined))
  {
    var line := c.encode(t)[..length] + c.encode(next);
    var joined := s + c.encode(t)[..length] + (c.encode(next) + "\n");
    var payloads := Printed(c, Records(c, s));
    WellFormedLines(c, s);
    CutTail(c, t, length);
    RenderAppend(payloads, [line]);
    assert Render([line]) == line + "\n" + Render([]);
    assert joined == Render(payloads + [line]);
    forall p | p in payloads + [line] ensures LineFree(p) {}
    SplitRendered(payloads + [line]);
    assert SplitLines(joined) == payloads + [line];
    KeptOne(c, payloads, line);
    assert payloads + [] == payloads;
    RenderEnds(payloads + [line]);
    ParsedPrinted(c, Records(c, s));
    NextIsNotBlank(c, c.encode(t)[..length], next);
    assert Bad(c, SplitLines(joined)[|payloads|]);
  }

  lemma NextIsNotBlank<T(!new)>(c: Codec<T>, before: Bytes, next: T)
    requires Lawful(c)
    ensures !Blank(before + c.encode(next))
  {
    var line := c.encode(next);
    assert !Blank(line);
    var i :| 0 <= i < |line| && line[i] !in " \t\n\r\U{B}\U{C}";
    assert (before + line)[|before| + i] == line[i];
  }

  // ---- repairing the store after a cut write ----

  lemma CutFile<T(!new)>(c: Codec<T>, s: Bytes, t: T, length: nat)
    requires Lawful(c) && WellFormed(c, s) && Recordable(c, t) && 0 < length <= |c.encode(t)|
    ensures var torn := s + c.encode(t)[..length];
            |SplitKeep(torn)| == |Records(c, s)| + 1 && Torn(torn) && !WellFormed(c, torn)
  {
    var payloads := Printed(c, Records(c, s));
    var torn := s + c.encode(t)[..length];
    WellFormedLines(c, s);
    CutTail(c, t, length);
    OpenEnded(c, payloads, c.encode(t)[..length]);
    SplitAgrees(torn);
    RenderEnds(Printed(c, Records(c, torn)));
  }

  /** The fate of a file without corruption. */
  lemma FateWithoutCorruption<T>(
    c: Codec<T>, s: Bytes, i: nat, maximum: nat, q: Quarantine, digest: Bytes -> nat, faults: set<(nat, RepairOp)>)
    requires !Corrupt(c, SplitLines(s), Torn(s))
    ensures FileAfter(c, Some(s), maximum, FateOf(c, Some(s), i, maximum, q, digest, faults)) ==
            if |s| > maximum then (if (i, MoveToQuarantine) in faults then Some(s) else None)
            else if |SplitKeep(s)| > MAX_RECOVERY_RECORDS || !Torn(s) || (i, Rewrite) in faults then Some(s)
            else Some(Render(Kept(c, SplitLines(s))))
  {
    hide Render, Kept, SplitLines, SplitKeep, Corrupt, Torn, Accepts;
  }

  /** The fate of a file whose last write was cut: it is mended exactly if it fits the size
      limit, has at most a thousand lines, and can be rewritten.  Otherwise it stays as it is, or
      is moved away if it is over the limit. */
  lemma CutFileIsMended<T(!new)>(
    c: Codec<T>, s: Bytes, t: T, length: nat, i: nat, maximum: nat, q: Quarantine, digest: Bytes -> nat,
    faults: set<(nat, RepairOp)>)
    requires Lawful(c) && WellFormed(c, s) && Recordable(c, t) && 0 < length <= |c.encode(t)|
    ensures var torn := s + c.encode(t)[..length];
            var after := FileAfter(c, Some(torn), maximum, FateOf(c, Some(torn), i, maximum, q, digest, faults));
            if |torn| <= maximum && |Records(c, s)| < MAX_RECOVERY_RECORDS && (i, Rewrite) !in faults then
              && after.Some? && WellFormed(c, after.value)
              && Records(c, after.value) == Records(c, s) + (if length == |c.encode(t)| then [t] else [])
            else if |torn| > maximum && (i, MoveToQuarantine) !in faults then after == None
            else after == Some(torn) && !WellFormed(c, torn)
  {
    CutFile(c, s, t, length);
    RepairAfterCut(c, s, t, length);
    hide WellFormed, Records, Render, Kept, SplitLines, SplitKeep, Corrupt, Torn, FateOf, FileAfter, Lawful;
    FateWithoutCorruption(c, s + c.encode(t)[..length], i, maximum, q, digest, faults);
  }

  /** A file of whole records is left as it is, unless it is over the limit and moved away. */
  lemma WellFormedFileStays<T(!new)>(
    c: Codec<T>, s: Bytes, i: nat, maximum: nat, q: Quarantine, digest: Bytes -> nat, faults: set<(nat, RepairOp)>)
    requires Lawful(c) && WellFormed(c, s)
    ensures FileAfter(c, Some(s), maximum, FateOf(c, Some(s), i, maximum, q, digest, faults)) ==
            if |s| > maximum && (i, MoveToQuarantine) !in faults then None else Some(s)
  {
    var payloads := Printed(c, Records(c, s));
    WellFormedLines(c, s);
    SplitRendered(payloads);
    RenderEnds(payloads);
    forall k | 0 <= k < |payloads| ensures !Bad(c, payloads[k]) { assert payloads[k] in payloads; }
    assert !Corrupt(c, SplitLines(s), false) && !Torn(s);
    hide FateOf, FileAfter;
    FateWithoutCorruption(c, s, i, maximum, q, digest, faults);
  }

  ghost predicate NothingMoves(files: Files, scanned: nat, maximum: nat, faults: set<(nat, RepairOp)>) {
    forall i :: !Moves(files, i, scanned, maximum, faults)
  }

  ghost predicate OnlyActiveMoves(files: Files, scanned: nat, maximum: nat, faults: set<(nat, RepairOp)>) {
    Moves(files, 0, scanned, maximum, faults) && forall i :: Moves(files, i, scanned, maximum, faults) ==> i == 0
  }

  /** What is fixed during a run of the store. */
  datatype Setting = Setting(backups: nat, maximum: nat, scanned: nat, digest: Bytes -> nat)

  /** The repair of every scanned file. */
  function RepairStore<T>(c: Codec<T>, files: Files, x: Setting, q: Quarantine, faults: set<(nat, RepairOp)>): Files {
    RepairFiles(c, files, x.scanned, x.maximum, q, x.digest, faults)
  }

  lemma OthersStay<T(!new)>(
    c: Codec<T>, files: Files, x: Setting, q: Quarantine, faults: set<(nat, RepairOp)>, i: nat)
    requires Lawful(c) && (i in files ==> WellFormed(c, files[i]))
    ensures Lookup(RepairStore(c, files, x, q, faults), i) ==
            if Moves(files, i, x.scanned, x.maximum, faults) then None else Lookup(files, i)
  {
    RepairFilesLookup(c, files, i, x.scanned, x.maximum, q, x.digest, faults);
    if i in files { WellFormedFileStays(c, files[i], i, x.maximum, q, x.digest, faults); }
    hide WellFormed, FateOf, FileAfter, RepairFiles;
  }

  lemma SameLookups(a: Files, b: Files)
    requires forall i: nat :: Lookup(a, i) == Lookup(b, i)
    ensures a == b
  {
    forall i: nat ensures i in a <==> i in b { assert Lookup(a, i) == Lookup(b, i); }
    assert a.Keys == b.Keys;
    forall i | i in a ensures a[i] == b[i] { assert Lookup(a, i) == Lookup(b, i); }
  }

  /** Repairing a store that refines a history leaves it alone if nothing is moved away. */
  lemma RefinedStoreStays<T(!new)>(
    c: Codec<T>, files: Files, x: Setting, q: Quarantine, faults: set<(nat, RepairOp)>, history: seq<T>)
    requires Lawful(c) && Refines(c, files, x.backups, history)
    requires NothingMoves(files, x.scanned, x.maximum, faults)
    ensures RepairStore(c, files, x, q, faults) == files
  {
    forall i: nat ensures Lookup(RepairStore(c, files, x, q, faults), i) == Lookup(files, i) {
      OthersStay(c, files, x, q, faults, i);
    }
    SameLookups(RepairStore(c, files, x, q, faults), files);
  }

  /** The active file is one that repair rewrites. */
  predicate Mendable(files: Files, maximum: nat, faults: set<(nat, RepairOp)>) {
    && 0 in files && |files[0]| <= maximum && |SplitKeep(files[0])| <= MAX_RECOVERY_RECORDS
    && (0, Rewrite) !in faults
  }

  lemma ActiveIsWellFormed<T(!new)>(c: Codec<T>, files: Files, backups: nat, history: seq<T>)
    requires Refines(c, files, backups, history)
    ensures WellFormed(c, Active(files)) && (0 in files ==> WellFormed(c, files[0]))
    ensures Records(c, Active(files)) == FileRecords(c, files, 0)
  {
    EmptyIsWellFormed(c);
  }

  lemma ReplaceActiveRefines<T(!new)>(
    c: Codec<T>, files: Files, backups: nat, bytes: Bytes, more: seq<T>, history: seq<T>)
    requires Refines(c, files, backups, history) && WellFormed(c, bytes)
    requires Records(c, bytes) == FileRecords(c, files, 0) + more
    ensures Refines(c, files[0 := bytes], backups, history + more)
  {
    hide WellFormed, Records, Suffix, LogTo;
    LogWithActive(c, files, files[0 := bytes], backups + 1, more);
    SuffixExtends(LogTo(c, files, backups + 1), history, more);
  }

  /** What repair makes of the active file after a cut write. */
  lemma RepairedActive<T(!new)>(
    c: Codec<T>, files: Files, t: T, length: nat, x: Setting, q: Quarantine, faults: set<(nat, RepairOp)>)
    requires Lawful(c) && WellFormed(c, Active(files)) && x.scanned > 0
    requires Recordable(c, t) && 0 < length <= |c.encode(t)|
    requires !Moves(AppendBytes(files, c.encode(t)[..length]), 0, x.scanned, x.maximum, faults)
    ensures var torn := AppendBytes(files, c.encode(t)[..length]);
            var after := Lookup(RepairStore(c, torn, x, q, faults), 0);
            && after.Some?
            && (WellFormed(c, after.value) <==> Mendable(torn, x.maximum, faults))
            && (WellFormed(c, after.value) ==>
                 Records(c, after.value) == Records(c, Active(files)) + if length == |c.encode(t)| then [t] else [])
  {
    var torn := AppendBytes(files, c.encode(t)[..length]);
    CutFile(c, Active(files), t, length);
    CutFileIsMended(c, Active(files), t, length, 0, x.maximum, q, x.digest, faults);
    RepairFilesLookup(c, torn, 0, x.scanned, x.maximum, q, x.digest, faults);
    hide WellFormed, Records, SplitKeep, FateOf, FileAfter, RepairFiles, Lawful;
    assert Lookup(torn, 0) == Some(torn[0]);
  }

  lemma OnlyActiveChanges<T(!new)>(
    c: Codec<T>, files: Files, bytes: Bytes, x: Setting, q: Quarantine, faults: set<(nat, RepairOp)>,
    history: seq<T>)
    requires Lawful(c) && Refines(c, files, x.backups, history)
    requires NothingMoves(files[0 := bytes], x.scanned, x.maximum, faults)
    requires 0 in RepairStore(c, files[0 := bytes], x, q, faults)
    ensures var after := RepairStore(c, files[0 := bytes], x, q, faults); after == files[0 := after[0]]
  {
    hide WellFormed, RepairStore, Moves;
    var torn := files[0 := bytes];
    var after := RepairStore(c, torn, x, q, faults);
    forall i: nat ensures Lookup(after, i) == Lookup(files[0 := after[0]], i) {
      if i > 0 {
        OthersStay(c, torn, x, q, faults, i);
        assert !Moves(torn, i, x.scanned, x.maximum, faults);
      }
    }
    SameLookups(after, files[0 := after[0]]);
  }

  lemma ActiveDecides<T(!new)>(
    c: Codec<T>, files: Files, bytes: Bytes, backups: nat, more: seq<T>, history: seq<T>)
    requires Refines(c, files, backups, history)
    requires WellFormed(c, bytes) ==> Records(c, bytes) == Records(c, Active(files)) + more
    ensures Refines(c, files[0 := bytes], backups, history + more) <==> WellFormed(c, bytes)
  {
    ActiveIsWellFormed(c, files, backups, history);
    if WellFormed(c, bytes) {
      ReplaceActiveRefines(c, files, backups, bytes, more, history);
    } else {
      hide WellFormed, Records, Suffix, LogTo;
      assert files[0 := bytes][0] == bytes;
    }
  }

  /** After a cut write the repaired store refines the history exactly if the active file has at
      most a thousand lines, fits the limit and can be rewritten, given that no scanned file is
      moved away. */
  lemma CutStoreIsMended<T(!new)>(
    c: Codec<T>, files: Files, t: T, length: nat, x: Setting, q: Quarantine, faults: set<(nat, RepairOp)>,
    history: seq<T>)
    requires Lawful(c) && Refines(c, files, x.backups, history) && x.scanned > 0
    requires Recordable(c, t) && 0 < length <= |c.encode(t)|
    requires NothingMoves(AppendBytes(files, c.encode(t)[..length]), x.scanned, x.maximum, faults)
    ensures var torn := AppendBytes(files, c.encode(t)[..length]);
            Refines(c, RepairStore(c, torn, x, q, faults), x.backups,
                    history + if length == |c.encode(t)| then [t] else []) <==>
            Mendable(torn, x.maximum, faults)
  {
    var torn := AppendBytes(files, c.encode(t)[..length]);
    var after := RepairStore(c, torn, x, q, faults);
    ActiveIsWellFormed(c, files, x.backups, history);
    RepairedActive(c, files, t, length, x, q, faults);
    OnlyActiveChanges(c, files, Active(files) + c.encode(t)[..length], x, q, faults, history);
    hide WellFormed, Records, Mendable, RepairStore, Refines, Lawful, NothingMoves;
    ActiveDecides(c, files, after[0], x.backups, if length == |c.encode(t)| then [t] else [], history);
  }

  // ---- whole runs ----

  datatype LogEvent<T> = Record(t: T, fault: Fault) | Repair(q: Quarantine, faults: set<(nat, RepairOp)>)

  datatype Log<T> = Log(files: Files, history: seq<T>)

  /** All of the record's text reached the active file, with or without its LF. */
  predicate Reached<T>(c: Codec<T>, files: Files, x: Setting, t: T, fault: Fault) {
    && Recordable(c, t) && !fault.OnOpen?
    && !(MustRotate(c, files, x.maximum, t) && fault.InRotation? && fault.n <= x.backups)
    && (fault.Cut? ==> fault.length >= |c.encode(t)|)
  }

  function NextLog<T>(c: Codec<T>, log: Log<T>, x: Setting, e: LogEvent<T>): Log<T> {
    match e
    case Record(t, fault) =>
      Log(Append(c, log.files, x.backups, x.maximum, t, fault),
          if Reached(c, log.files, x, t, fault) then log.history + [t] else log.history)
    case Repair(q, faults) => log.(files := RepairStore(c, log.files, x, q, faults))
  }

  function RunLog<T>(c: Codec<T>, log: Log<T>, x: Setting, events: seq<LogEvent<T>>): Log<T>
    decreases |events|
  {
    if events == [] then log else RunLog(c, NextLog(c, log, x, events[0]), x, events[1..])
  }

  /** The event leaves text without a line end in the active file. */
  predicate LeavesTorn<T>(c: Codec<T>, e: LogEvent<T>) {
    e.Record? && Recordable(c, e.t) && e.fault.Cut? && 0 < e.fault.length <= |c.encode(e.t)|
  }

  /** Every cut write is repaired before anything else happens, at a moment at which the active
      file is one that repair rewrites; and no repair moves a file away. */
  ghost predicate Tended<T>(c: Codec<T>, log: Log<T>, x: Setting, events: seq<LogEvent<T>>)
    decreases |events|
  {
    if events == [] then true
    else
      var e, next, rest := events[0], NextLog(c, log, x, events[0]), events[1..];
      if e.Repair? then NothingMoves(log.files, x.scanned, x.maximum, e.faults) && Tended(c, next, x, rest)
      else if !LeavesTorn(c, e) then Tended(c, next, x, rest)
      else
        && rest != [] && rest[0].Repair?
        && NothingMoves(next.files, x.scanned, x.maximum, rest[0].faults)
        && Mendable(next.files, x.maximum, rest[0].faults)
        && Tended(c, NextLog(c, next, x, rest[0]), x, rest[1..])
  }

  lemma EmptyLogRefines<T>(c: Codec<T>, backups: nat)
    ensures Refines(c, map[], backups, [])
  {
    EmptyLog(c, backups + 1);
  }

  lemma {:induction false} EmptyLog<T>(c: Codec<T>, n: nat)
    ensures LogTo(c, map[], n) == []
    decreases n
  {
    if n > 0 { EmptyLog(c, n - 1); }
  }

  /** The store an append writes to: rotated if the line would not fit. */
  function Room<T>(c: Codec<T>, files: Files, x: Setting, t: T): Files {
    if MustRotate(c, files, x.maximum, t) then RotateSteps(files, x.backups, x.backups + 1) else files
  }

  lemma RoomRefines<T(!new)>(c: Codec<T>, files: Files, x: Setting, t: T, history: seq<T>)
    requires Refines(c, files, x.backups, history)
    ensures Refines(c, Room(c, files, x, t), x.backups, history)
  {
    hide Refines, MustRotate, RotateSteps;
    if MustRotate(c, files, x.maximum, t) { RotationRefines(c, files, x.backups, history, x.backups + 1); }
  }

  lemma WholeRecordRefines<T(!new)>(c: Codec<T>, log: Log<T>, x: Setting, e: LogEvent<T>)
    requires Lawful(c) && Refines(c, log.files, x.backups, log.history) && e.Record? && !LeavesTorn(c, e)
    ensures var next := NextLog(c, log, x, e); Refines(c, next.files, x.backups, next.history)
  {
    hide Refines, RotateSteps, MustRotate, Append;
    if Recordable(c, e.t) {
      assert c.encode(e.t) != "" by { assert !Blank(c.encode(e.t)); }
      AppendRefines(c, log.files, x.backups, x.maximum, e.t, e.fault, log.history);
    } else {
      AppendRefines(c, log.files, x.backups, x.maximum, e.t, NoFault, log.history);
      UnrecordableIsSkipped(c, log.files, x, e.t, e.fault);
    }
  }

  lemma UnrecordableIsSkipped<T>(c: Codec<T>, files: Files, x: Setting, t: T, fault: Fault)
    requires !Recordable(c, t)
    ensures Append(c, files, x.backups, x.maximum, t, fault) == files ==
            Append(c, files, x.backups, x.maximum, t, NoFault)
  {
  }

  lemma CutAppend<T>(c: Codec<T>, files: Files, x: Setting, t: T, length: nat)
    requires Recordable(c, t) && length <= |c.encode(t)|
    ensures Append(c, files, x.backups, x.maximum, t, Cut(length)) ==
            AppendBytes(Room(c, files, x, t), c.encode(t)[..length])
  {
    assert (c.encode(t) + "\n")[..length] == c.encode(t)[..length];
  }

  lemma CutThenRepairRefines<T(!new)>(
    c: Codec<T>, log: Log<T>, x: Setting, e: LogEvent<T>, repair: LogEvent<T>)
    requires Lawful(c) && Refines(c, log.files, x.backups, log.history) && x.scanned > 0
    requires LeavesTorn(c, e) && repair.Repair?
    requires NothingMoves(NextLog(c, log, x, e).files, x.scanned, x.maximum, repair.faults)
    ensures var next := NextLog(c, NextLog(c, log, x, e), x, repair);
            Refines(c, next.files, x.backups, next.history) <==>
            Mendable(NextLog(c, log, x, e).files, x.maximum, repair.faults)
  {
    CutAppend(c, log.files, x, e.t, e.fault.length);
    RoomRefines(c, log.files, x, e.t, log.history);
    hide Refines, Room, Append, Mendable, NothingMoves, RepairStore;
    CutStoreIsMended(
      c, Room(c, log.files, x, e.t), e.t, e.fault.length, x, repair.q, repair.faults, log.history);
    assert log.history + [] == log.history;
  }

  /** However appends, failed rotations, failed opens, cut writes and repairs follow each other,
      a tended store holds the newest part of what was recorded, in order. */
  lemma {:induction false} RunRefines<T(!new)>(c: Codec<T>, log: Log<T>, x: Setting, events: seq<LogEvent<T>>)
    requires Lawful(c) && Refines(c, log.files, x.backups, log.history) && x.scanned > 0
    requires Tended(c, log, x, events)
    ensures var end := RunLog(c, log, x, events);
            Refines(c, end.files, x.backups, end.history) && |end.files| <= x.backups + 1
    decreases |events|
  {
    if events == [] {
      BoundedCount(log.files, x.backups);
    } else {
      var e, next, rest := events[0], NextLog(c, log, x, events[0]), events[1..];
      if e.Repair? {
        RefinedStoreStays(c, log.files, x, e.q, e.faults, log.history);
        RunRefines(c, next, x, rest);
      } else if !LeavesTorn(c, e) {
        WholeRecordRefines(c, log, x, e);
        RunRefines(c, next, x, rest);
      } else {
        CutThenRepairRefines(c, log, x, e, rest[0]);
        RunRefines(c, NextLog(c, next, x, rest[0]), x, rest[1..]);
      }
    }
  }

  // ---- what repair refuses or moves away ----

  /** A store whose active file holds a thousand records of t. */
  function Thousand<T>(t: T): seq<T> { seq(MAX_RECOVERY_RECORDS, i => t) }

  function FullStore<T>(c: Codec<T>, t: T): Files { map[0 := Render(Printed(c, Thousand(t)))] }

  lemma FullStoreRefines<T(!new)>(c: Codec<T>, t: T, backups: nat)
    requires Lawful(c) && Recordable(c, t)
    ensures Refines(c, FullStore(c, t), backups, Thousand(t))
    ensures Records(c, Active(FullStore(c, t))) == Thousand(t)
  {
    var files := FullStore(c, t);
    RecordsOfRendered(c, Thousand(t), "");
    assert Render(Printed(c, Thousand(t))) + "" == files[0];
    EmptyLog(c, backups + 1);
    EmptyIsWellFormed(c);
    var empty: Files := map[0 := ""];
    LogWithActive(c, map[], files, backups + 1, Thousand(t));
    assert [] + Thousand(t) == Thousand(t);
  }

  /** The cut makes one line too many. */
  lemma FullActive<T(!new)>(c: Codec<T>, t: T, length: nat)
    requires Lawful(c) && Recordable(c, t) && 0 < length < |c.encode(t)|
    ensures var torn := AppendBytes(FullStore(c, t), c.encode(t)[..length]);
            && torn.Keys == {0} && WellFormed(c, Active(FullStore(c, t)))
            && Torn(torn[0]) && |SplitKeep(torn[0])| == MAX_RECOVERY_RECORDS + 1
  {
    FullStoreRefines(c, t, 0);
    ActiveIsWellFormed(c, FullStore(c, t), 0, Thousand(t));
    hide WellFormed, Records, SplitKeep, Torn, Refines, Lawful, Thousand, Render;
    CutFile(c, Active(FullStore(c, t)), t, length);
  }

  lemma FullFileIsKept<T(!new)>(c: Codec<T>, t: T, length: nat, x: Setting, q: Quarantine)
    requires Lawful(c) && Recordable(c, t) && 0 < length < |c.encode(t)|
    requires |AppendBytes(FullStore(c, t), c.encode(t)[..length])[0]| <= x.maximum
    ensures var torn := AppendBytes(FullStore(c, t), c.encode(t)[..length]); RepairStore(c, torn, x, q, {}) == torn
  {
    var files := FullStore(c, t);
    var torn := AppendBytes(files, c.encode(t)[..length]);
    FullActive(c, t, length);
    hide WellFormed, Records, SplitKeep, FateOf, FileAfter, RepairFiles, Lawful, FullStore, Torn;
    CutFileIsMended(c, Active(files), t, length, 0, x.maximum, q, x.digest, {});
    RepairFilesLookup(c, torn, 0, x.scanned, x.maximum, q, x.digest, {});
    forall i: nat ensures Lookup(RepairStore(c, torn, x, q, {}), i) == Lookup(torn, i) {
      if i > 0 { OthersStay(c, torn, x, q, {}, i); }
    }
    SameLookups(RepairStore(c, torn, x, q, {}), torn);
  }

  /** At a concrete store: with a thousand records before the cut, repair refuses, the file stays
      torn, and the store no longer refines the history. */
  lemma FullFileStaysTorn<T(!new)>(c: Codec<T>, t: T, length: nat, x: Setting, q: Quarantine)
    requires Lawful(c) && Recordable(c, t) && 0 < length < |c.encode(t)| && x.scanned > 0
    requires |AppendBytes(FullStore(c, t), c.encode(t)[..length])[0]| <= x.maximum
    ensures var torn := AppendBytes(FullStore(c, t), c.encode(t)[..length]);
            && Refines(c, FullStore(c, t), x.backups, Thousand(t))
            && RepairStore(c, torn, x, q, {}) == torn && Torn(torn[0])
            && !Refines(c, RepairStore(c, torn, x, q, {}), x.backups, Thousand(t))
  {
    var torn := AppendBytes(FullStore(c, t), c.encode(t)[..length]);
    FullStoreRefines(c, t, x.backups);
    FullActive(c, t, length);
    FullFileIsKept(c, t, length, x, q);
    hide WellFormed, Records, SplitKeep, RepairStore, Refines, Lawful, FullStore, Torn, Thousand;
    assert NothingMoves(torn, x.scanned, x.maximum, {});
    CutStoreIsMended(c, FullStore(c, t), t, length, x, q, {}, Thousand(t));
    assert Thousand(t) + [] == Thousand(t);
  }

  ghost predicate OnlyCopies<T>(records: seq<T>, t: T) {
    forall i :: 0 <= i < |records| ==> records[i] == t
  }

  /** A suffix is still one after t was added exactly if it holds nothing but t. */
  lemma SuffixOfLonger<T>(part: seq<T>, whole: seq<T>, t: T)
    requires Suffix(part, whole)
    ensures Suffix(part, whole + [t]) <==> OnlyCopies(part, t)
  {
    var n := |part|;
    if n > 0 {
      var shifted := (whole + [t])[|whole| + 1 - n..];
      if OnlyCopies(part, t) {
        forall k | 0 <= k < n ensures shifted[k] == part[k] {
          assert k + 1 < n ==> part[k + 1] == whole[|whole| - n..][k + 1];
        }
        assert shifted == part;
      } else if shifted == part {
        SuffixMeetsShift(part, whole, t);
        assert false;
      }
    }
  }

  lemma {:induction false} SuffixMeetsShift<T>(part: seq<T>, whole: seq<T>, t: T)
    requires part != [] && |part| <= |whole|
    requires whole[|whole| - |part|..] == part == (whole + [t])[|whole| + 1 - |part|..]
    ensures OnlyCopies(part, t)
  {
    var n := |part|;
    var k := n;
    while k > 0
      invariant 0 <= k <= n && forall j :: k <= j < n ==> part[j] == t
    {
      k := k - 1;
      if k + 1 < n {
        assert part[k] == (whole + [t])[|whole| + 1 - n..][k] == whole[|whole| + 1 - n + k];
        assert part[k + 1] == whole[|whole| - n..][k + 1];
      }
    }
  }

  /** A line over the limit goes to an empty file and is moved away with it by the next repair.
      If it was cut short, nothing is lost; a whole record is lost, so that the store refines the
      history only if all it holds are copies of that record. */
  lemma OverlongLineIsMovedAway<T(!new)>(
    c: Codec<T>, log: Log<T>, t: T, length: nat, x: Setting, q: Quarantine, faults: set<(nat, RepairOp)>)
    requires Lawful(c) && Refines(c, log.files, x.backups, log.history) && x.scanned > 0 && Recordable(c, t)
    requires OnlyActiveMoves(NextLog(c, log, x, Record(t, Cut(length))).files, x.scanned, x.maximum, faults)
    ensures var next := NextLog(c, log, x, Record(t, Cut(length)));
            var after := NextLog(c, next, x, Repair(q, faults));
            && after.files == Room(c, log.files, x, t) && 0 !in after.files
            && (Refines(c, after.files, x.backups, after.history) <==>
                 length < |c.encode(t)| || OnlyCopies(LogTo(c, after.files, x.backups + 1), t))
  {
    var room, written := Room(c, log.files, x, t), Written(c, t, Cut(length));
    RoomRefines(c, log.files, x, t, log.history);
    OverlongNeedsRoom(c, log.files, x, t, length);
    MovedActive(c, room, written, x, q, faults, log.history);
    SuffixOfLonger(LogTo(c, room, x.backups + 1), log.history, t);
    hide WellFormed, LogTo, Suffix, RepairStore, Room, OnlyCopies, Lawful;
  }

  lemma MovedActive<T(!new)>(
    c: Codec<T>, room: Files, bytes: Bytes, x: Setting, q: Quarantine, faults: set<(nat, RepairOp)>, history: seq<T>)
    requires Lawful(c) && Refines(c, room, x.backups, history) && 0 !in room && x.scanned > 0
    requires OnlyActiveMoves(room[0 := bytes], x.scanned, x.maximum, faults)
    ensures RepairStore(c, room[0 := bytes], x, q, faults) == room
  {
    var torn := room[0 := bytes];
    var after := RepairStore(c, torn, x, q, faults);
    RepairFilesLookup(c, torn, 0, x.scanned, x.maximum, q, x.digest, faults);
    forall i: nat ensures Lookup(after, i) == Lookup(room, i) {
      if i > 0 { OthersStay(c, torn, x, q, faults, i); }
    }
    SameLookups(after, room);
  }

  lemma OverlongNeedsRoom<T>(c: Codec<T>, files: Files, x: Setting, t: T, length: nat)
    requires Recordable(c, t) && forall i :: i in files ==> i <= x.backups
    requires var torn := Append(c, files, x.backups, x.maximum, t, Cut(length)); |torn[0]| > x.maximum
    ensures 0 !in Room(c, files, x, t)
    ensures Append(c, files, x.backups, x.maximum, t, Cut(length)) ==
            Room(c, files, x, t)[0 := Written(c, t, Cut(length))]
  {
    var written := Written(c, t, Cut(length));
    assert |written| <= |c.encode(t)| + 1;
    if MustRotate(c, files, x.maximum, t) {
      StepsLeaveAHole(files, x.backups, x.backups + 1);
      assert "" + written == written;
    }
  }
}
