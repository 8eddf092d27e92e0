/** The rotating trace store: append with size-triggered rotation and the bounded newest-first
    scan, against one append-only history (core/execution_trace.py:799-915). */
module TraceStore {
  import opened Options
  import opened TraceLines
  import opened TraceRepair

  /** File 0 is the active file, file i is backup number i. */
  type Files = map<nat, Bytes>

  /** Printed records are one non-blank line each, parse back, and are not parsed early. */
  ghost predicate Lawful<T(!new)>(c: Codec<T>) {
    && (forall t {:trigger c.encode(t)} :: c.parse(c.encode(t)) == Some(t)
          && LineFree(c.encode(t)) && !Blank(c.encode(t)))
    && (forall t, n: nat {:trigger c.parse(c.encode(t)[..n])} ::
          n < |c.encode(t)| ==> c.parse(c.encode(t)[..n]).None?)
  }

  predicate Recordable<T>(c: Codec<T>, t: T) { |c.encode(t)| <= MAX_TRACE_CHARS }

  function Printed<T>(c: Codec<T>, ts: seq<T>): seq<Bytes> {
    seq(|ts|, i requires 0 <= i < |ts| => c.encode(ts[i]))
  }

  // ---- the abstract history ----

  /** The bytes are exactly the records they hold, one line each. */
  ghost predicate WellFormed<T>(c: Codec<T>, s: Bytes) {
    s == Render(Printed(c, Records(c, s))) && forall t :: t in Records(c, s) ==> Recordable(c, t)
  }

  function FileRecords<T>(c: Codec<T>, files: Files, i: nat): seq<T> {
    if i in files then Records(c, files[i]) else []
  }

  /** Records of files 0..n, oldest first. */
  function LogTo<T>(c: Codec<T>, files: Files, n: nat): seq<T> {
    if n == 0 then [] else FileRecords(c, files, n - 1) + LogTo(c, files, n - 1)
  }

  ghost predicate Suffix<T>(part: seq<T>, whole: seq<T>) {
    |part| <= |whole| && whole[|whole| - |part|..] == part
  }

  /** At most the active file and `backups` backups exist, each is well formed, and together
      they hold the newest part of everything ever appended, in order. */
  ghost predicate Refines<T>(c: Codec<T>, files: Files, backups: nat, history: seq<T>) {
    && (forall i :: i in files ==> i <= backups && WellFormed(c, files[i]))
    && Suffix(LogTo(c, files, backups + 1), history)
  }

  predicate Fits(files: Files, maximum: nat) {
    forall i :: i in files ==> |files[i]| <= maximum
  }

  // ---- rotation, one file operation at a time ----

  function Move(files: Files, i: nat): Files {
    if i in files then (files - {i})[i + 1 := files[i]] else files
  }

  /** The files after the first n operations of a rotation: unlink the oldest, then shift
      each file up, the active one last. */
  function RotateSteps(files: Files, backups: nat, n: nat): Files
    requires n <= backups + 1
  {
    if n == 0 then files
    else if n == 1 then files - {backups}
    else Move(RotateSteps(files, backups, n - 1), backups - (n - 1))
  }

  lemma {:induction false} LogAgrees<T>(c: Codec<T>, a: Files, b: Files, n: nat)
    requires forall i: nat :: i < n ==> FileRecords(c, a, i) == FileRecords(c, b, i)
    ensures LogTo(c, a, n) == LogTo(c, b, n)
    decreases n
  {
    if n > 0 { LogAgrees(c, a, b, n - 1); }
  }

  lemma MovedRecords<T>(c: Codec<T>, files: Files, i: nat)
    requires i + 1 !in files
    ensures var moved := Move(files, i);
            && FileRecords(c, moved, i + 1) == FileRecords(c, files, i)
            && FileRecords(c, moved, i) == [] == FileRecords(c, files, i + 1)
            && forall j: nat :: j != i && j != i + 1 ==> FileRecords(c, moved, j) == FileRecords(c, files, j)
  {
    hide Records;
  }

  /** Moving a file into a hole above it does not change the log. */
  lemma {:induction false} MoveKeepsLog<T>(c: Codec<T>, files: Files, i: nat, n: nat)
    requires i + 1 < n && i + 1 !in files
    ensures LogTo(c, Move(files, i), n) == LogTo(c, files, n)
    decreases n
  {
    hide Move, FileRecords;
    var moved := Move(files, i);
    MovedRecords(c, files, i);
    if n == i + 2 {
      LogAgrees(c, moved, files, i);
      assert LogTo(c, files, n) == [] + (FileRecords(c, files, i) + LogTo(c, files, i));
      assert LogTo(c, moved, n) == FileRecords(c, files, i) + ([] + LogTo(c, files, i));
    } else {
      MoveKeepsLog(c, files, i, n - 1);
    }
  }

  lemma {:induction false} StepsLeaveAHole(files: Files, backups: nat, n: nat)
    requires 1 <= n <= backups + 1 && (forall i :: i in files ==> i <= backups)
    ensures var t := RotateSteps(files, backups, n);
            && backups - (n - 1) !in t
            && (forall i :: i in t ==> i <= backups)
            && (forall i: nat :: i < backups - (n - 1) ==>
                 (i in t <==> i in files) && (i in files ==> t[i] == files[i]))
            && (forall i: nat :: backups - (n - 1) < i <= backups ==>
                 (i in t <==> i - 1 in files) && (i in t ==> t[i] == files[i - 1]))
    decreases n
  {
    if n > 1 { StepsLeaveAHole(files, backups, n - 1); }
  }

  /** A full rotation shifts every file up by one and drops the oldest. */
  lemma RotationShifts(files: Files, backups: nat)
    requires forall i :: i in files ==> i <= backups
    ensures var t := RotateSteps(files, backups, backups + 1);
            && t.Keys == (set i | i in files && i < backups :: i + 1)
            && (forall i :: i in files && i < backups ==> t[i + 1] == files[i])
  {
    StepsLeaveAHole(files, backups, backups + 1);
    var t := RotateSteps(files, backups, backups + 1);
    forall j | j in t ensures j in (set i | i in files && i < backups :: i + 1) {
      assert j - 1 in files;
    }
  }

  lemma UnlinkOldestRefines<T>(c: Codec<T>, files: Files, backups: nat, history: seq<T>)
    requires Refines(c, files, backups, history)
    ensures Refines(c, files - {backups}, backups, history)
  {
    hide WellFormed, Records, Suffix;
    var left := files - {backups};
    LogAgrees(c, left, files, backups);
    var oldest, log := FileRecords(c, files, backups), LogTo(c, files, backups);
    assert LogTo(c, files, backups + 1) == oldest + log;
    assert LogTo(c, left, backups + 1) == [] + log == log;
    SuffixOfConcat(oldest, log);
    SuffixOfSuffix(log, oldest + log, history);
  }

  lemma MoveRefines<T>(c: Codec<T>, files: Files, i: nat, backups: nat, history: seq<T>)
    requires Refines(c, files, backups, history) && i < backups && i + 1 !in files
    ensures Refines(c, Move(files, i), backups, history)
  {
    hide WellFormed, LogTo, Suffix;
    MoveKeepsLog(c, files, i, backups + 1);
  }

  /** Between any two operations of a rotation the store still refines the history. */
  lemma {:induction false} RotationRefines<T>(c: Codec<T>, files: Files, backups: nat, history: seq<T>, n: nat)
    requires Refines(c, files, backups, history) && n <= backups + 1
    ensures Refines(c, RotateSteps(files, backups, n), backups, history)
    decreases n
  {
    if n == 1 {
      UnlinkOldestRefines(c, files, backups, history);
    } else if n > 1 {
      RotationRefines(c, files, backups, history, n - 1);
      NextStepRefines(c, files, backups, history, n);
    }
  }

  lemma NextStepRefines<T>(c: Codec<T>, files: Files, backups: nat, history: seq<T>, n: nat)
    requires 2 <= n <= backups + 1 && (forall i :: i in files ==> i <= backups)
    requires Refines(c, RotateSteps(files, backups, n - 1), backups, history)
    ensures Refines(c, RotateSteps(files, backups, n), backups, history)
  {
    hide Refines, LogTo;
    StepsLeaveAHole(files, backups, n - 1);
    MoveRefines(c, RotateSteps(files, backups, n - 1), backups - (n - 1), backups, history);
  }

  // ---- append ----

  /** Where an append stops: at the n-th operation of the rotation, when opening the file, or
      after only part of the line reached the disk. */
  datatype Fault = NoFault | InRotation(n: nat) | OnOpen | Cut(length: nat)

  function Written<T>(c: Codec<T>, t: T, fault: Fault): Bytes {
    var line := c.encode(t) + "\n";
    match fault
    case Cut(length) => if length < |line| then line[..length] else line
    case OnOpen => ""
    case _ => line
  }

  function Active(files: Files): Bytes { if 0 in files then files[0] else "" }

  predicate MustRotate<T>(c: Codec<T>, files: Files, maximum: nat, t: T) {
    |Active(files)| + |c.encode(t)| + 1 > maximum
  }

  function AppendBytes(files: Files, bytes: Bytes): Files { files[0 := Active(files) + bytes] }

  function Append<T>(c: Codec<T>, files: Files, backups: nat, maximum: nat, t: T, fault: Fault): Files {
    if !Recordable(c, t) then files
    else
      var full := MustRotate(c, files, maximum, t);
      if full && fault.InRotation? && fault.n <= backups then RotateSteps(files, backups, fault.n)
      else
        var room := if full then RotateSteps(files, backups, backups + 1) else files;
        if fault.OnOpen? then room else AppendBytes(room, Written(c, t, fault))
  }

  /** The whole record reached the active file. */
  predicate Recorded<T>(c: Codec<T>, files: Files, backups: nat, maximum: nat, t: T, fault: Fault) {
    && Recordable(c, t) && !fault.OnOpen?
    && !(MustRotate(c, files, maximum, t) && fault.InRotation? && fault.n <= backups)
    && (fault.Cut? ==> fault.length > |c.encode(t)|)
  }

  lemma RecordsOfRendered<T(!new)>(c: Codec<T>, ts: seq<T>, tail: Bytes)
    requires Lawful(c) && (forall t :: t in ts ==> Recordable(c, t))
    requires LineFree(tail) && !Keep(c, tail)
    ensures Records(c, Render(Printed(c, ts)) + tail) == ts
  {
    var payloads := Printed(c, ts);
    forall p | p in payloads ensures LineFree(p) && Keep(c, p) {
      var i :| 0 <= i < |payloads| && p == payloads[i];
      assert ts[i] in ts;
      assert p == c.encode(ts[i]);
    }
    SplitRender(payloads, tail);
    KeptAll(c, payloads);
    KeptOne(c, payloads, tail);
    assert payloads + [] == payloads;
    ParsedPrinted(c, ts);
  }

  lemma {:induction false} ParsedPrinted<T(!new)>(c: Codec<T>, ts: seq<T>)
    requires Lawful(c)
    ensures Parsed(c, Printed(c, ts)) == ts
    decreases |ts|
  {
    if ts != [] {
      var n := |ts| - 1;
      ParsedPrinted(c, ts[..n]);
      assert Printed(c, ts)[..n] == Printed(c, ts[..n]);
      assert c.parse(c.encode(ts[n])) == Some(ts[n]);
      assert ts == ts[..n] + [ts[n]];
    }
  }

  lemma WellFormedAppend<T(!new)>(c: Codec<T>, s: Bytes, t: T)
    requires Lawful(c) && WellFormed(c, s) && Recordable(c, t)
    ensures WellFormed(c, s + (c.encode(t) + "\n"))
    ensures Records(c, s + (c.encode(t) + "\n")) == Records(c, s) + [t]
  {
    var ts := Records(c, s);
    var next := s + (c.encode(t) + "\n");
    assert Printed(c, ts + [t]) == Printed(c, ts) + [c.encode(t)];
    RenderAppend(Printed(c, ts), [c.encode(t)]);
    assert Render([c.encode(t)]) == c.encode(t) + "\n" + Render([]);
    assert next == Render(Printed(c, ts + [t]));
    RecordsOfRendered(c, ts + [t], "");
    assert next + "" == next;
  }

  lemma {:induction false} LogWithActive<T>(c: Codec<T>, a: Files, b: Files, n: nat, more: seq<T>)
    requires n > 0
    requires FileRecords(c, b, 0) == FileRecords(c, a, 0) + more
    requires forall i: nat :: 0 < i < n ==> FileRecords(c, b, i) == FileRecords(c, a, i)
    ensures LogTo(c, b, n) == LogTo(c, a, n) + more
    decreases n
  {
    if n == 1 {
      assert LogTo(c, b, 0) == [] && LogTo(c, a, 0) == [];
    } else {
      LogWithActive(c, a, b, n - 1, more);
    }
  }

  lemma SuffixOfConcat<T>(a: seq<T>, b: seq<T>)
    ensures Suffix(b, a + b)
  {
  }

  lemma SuffixOfSuffix<T>(a: seq<T>, b: seq<T>, whole: seq<T>)
    requires Suffix(a, b) && Suffix(b, whole)
    ensures Suffix(a, whole)
  {
    assert whole[|whole| - |a|..] == b[|b| - |a|..];
  }

  lemma SuffixExtends<T>(part: seq<T>, whole: seq<T>, more: seq<T>)
    requires Suffix(part, whole)
    ensures Suffix(part + more, whole + more)
  {
  }

  lemma EmptyIsWellFormed<T>(c: Codec<T>)
    ensures WellFormed(c, "") && Records(c, "") == []
  {
    assert SplitLines("") == [];
    assert Printed(c, []) == [];
  }

  lemma WriteLineRefines<T(!new)>(c: Codec<T>, files: Files, backups: nat, t: T, history: seq<T>)
    requires Lawful(c) && Refines(c, files, backups, history) && Recordable(c, t)
    ensures Refines(c, AppendBytes(files, c.encode(t) + "\n"), backups, history + [t])
  {
    hide WellFormed, Records, Suffix, LogTo;
    EmptyIsWellFormed(c);
    WellFormedAppend(c, Active(files), t);
    LogWithActive(c, files, AppendBytes(files, c.encode(t) + "\n"), backups + 1, [t]);
    SuffixExtends(LogTo(c, files, backups + 1), history, [t]);
  }

  lemma WriteNothingRefines<T(!new)>(c: Codec<T>, files: Files, backups: nat, history: seq<T>)
    requires Refines(c, files, backups, history)
    ensures Refines(c, AppendBytes(files, ""), backups, history)
  {
    EmptyIsWellFormed(c);
    assert Active(files) + "" == Active(files);
    LogAgrees(c, AppendBytes(files, ""), files, backups + 1);
  }

  /** Appending refines appending to the history, whichever step fails, as long as the line is
      written whole or not at all. */
  lemma AppendRefines<T(!new)>(
    c: Codec<T>, files: Files, backups: nat, maximum: nat, t: T, fault: Fault, history: seq<T>)
    requires Lawful(c) && Refines(c, files, backups, history)
    requires fault.Cut? ==> fault.length == 0 || fault.length > |c.encode(t)|
    ensures Refines(c, Append(c, files, backups, maximum, t, fault), backups,
              if Recorded(c, files, backups, maximum, t, fault) then history + [t] else history)
  {
    var full := MustRotate(c, files, maximum, t);
    if !Recordable(c, t) {
    } else if full && fault.InRotation? && fault.n <= backups {
      RotationRefines(c, files, backups, history, fault.n);
    } else {
      if full { RotationRefines(c, files, backups, history, backups + 1); }
      var room := if full then RotateSteps(files, backups, backups + 1) else files;
      if fault.OnOpen? {
      } else if fault.Cut? && fault.length == 0 {
        WriteNothingRefines(c, room, backups, history);
        assert Written(c, t, fault) == "";
      } else {
        WriteLineRefines(c, room, backups, t, history);
        assert Written(c, t, fault) == c.encode(t) + "\n";
      }
    }
  }

  /** The limit holds for every file while each line fits it on its own. */
  lemma AppendFits<T>(c: Codec<T>, files: Files, backups: nat, maximum: nat, t: T, fault: Fault)
    requires Fits(files, maximum) && |c.encode(t)| + 1 <= maximum
    requires forall i :: i in files ==> i <= backups
    ensures Fits(Append(c, files, backups, maximum, t, fault), maximum)
  {
    if fault.InRotation? && 1 <= fault.n <= backups { StepsLeaveAHole(files, backups, fault.n); }
    StepsLeaveAHole(files, backups, backups + 1);
  }

  lemma {:induction false} BoundedCount(files: Files, backups: nat)
    requires forall i :: i in files ==> i <= backups
    ensures |files| <= backups + 1
    decreases backups
  {
    if backups == 0 {
      assert files.Keys <= {0};
      if files.Keys != {} { assert files.Keys == {0}; }
    } else {
      var rest := files - {backups};
      BoundedCount(rest, backups - 1);
      assert files.Keys <= rest.Keys + {backups};
      assert |files.Keys| <= |rest.Keys + {backups}| by {
        SubsetSize(files.Keys, rest.Keys + {backups});
      }
    }
  }

  lemma {:induction false} SubsetSize<K>(a: set<K>, b: set<K>)
    requires a <= b
    ensures |a| <= |b|
    decreases a
  {
    if a != {} {
      var x :| x in a;
      SubsetSize(a - {x}, b - {x});
    }
  }
}
