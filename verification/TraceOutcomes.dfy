/** What an append makes of every file, case by case: which file holds what afterwards, for every
    store, every limit and every fault (core/execution_trace.py:799-852). */
module TraceOutcomes {
  import opened Options
  import opened TraceLines
  import opened TraceRepair
  import opened TraceStore
  import opened TraceScan

  /** The line fits into the active file. */
  predicate HasRoom<T>(c: Codec<T>, files: Files, maximum: nat, t: T) {
    (if 0 in files then |files[0]| else 0) + |c.encode(t)| + |"\n"| <= maximum
  }

  /** What reaches the active file when it is written to. */
  function Text<T>(c: Codec<T>, t: T, fault: Fault): Bytes {
    if fault.Cut? && fault.length <= |c.encode(t)| then c.encode(t)[..fault.length] else c.encode(t) + "\n"
  }

  /** With room: the text goes behind what the active file holds, and no other file changes; if the
      file cannot be opened, nothing changes. */
  lemma AppendWithRoom<T>(c: Codec<T>, files: Files, backups: nat, maximum: nat, t: T, fault: Fault)
    requires |c.encode(t)| <= 262_144 && HasRoom(c, files, maximum, t)
    ensures Append(c, files, backups, maximum, t, fault) ==
            if fault.OnOpen? then files
            else files[0 := (if 0 in files then files[0] else "") + Text(c, t, fault)]
  {
    TextIsWritten(c, t, fault);
    hide Written, Text;
  }

  /** A record that is too long is not written at all. */
  lemma AppendTooLong<T>(c: Codec<T>, files: Files, backups: nat, maximum: nat, t: T, fault: Fault)
    requires |c.encode(t)| > 262_144
    ensures Append(c, files, backups, maximum, t, fault) == files
  {
  }

  /** Without room, when no step of the rotation fails: every file moves up by one, the oldest is
      dropped, and the text is all of the new active file. */
  lemma AppendWithoutRoom<T>(c: Codec<T>, files: Files, backups: nat, maximum: nat, t: T, fault: Fault, i: nat)
    requires |c.encode(t)| <= 262_144 && !HasRoom(c, files, maximum, t)
    requires !(fault.InRotation? && fault.n <= backups) && forall j :: j in files ==> j <= backups
    ensures Lookup(Append(c, files, backups, maximum, t, fault), i) ==
            if i == 0 then (if fault.OnOpen? then None else Some(Text(c, t, fault)))
            else if i <= backups then Lookup(files, i - 1) else None
  {
    StepsLeaveAHole(files, backups, backups + 1);
    TextIsWritten(c, t, fault);
    assert "" + Text(c, t, fault) == Text(c, t, fault);
    hide Written, Text, RotateSteps;
  }

  /** Without room, when the rotation fails at operation n: the files that were already moved are
      one up, there is a hole below them, the others are where they were, and nothing is
      written. */
  lemma AppendFailsInRotation<T>(c: Codec<T>, files: Files, backups: nat, maximum: nat, t: T, n: nat, i: nat)
    requires |c.encode(t)| <= 262_144 && !HasRoom(c, files, maximum, t)
    requires n <= backups && forall j :: j in files ==> j <= backups
    ensures Lookup(Append(c, files, backups, maximum, t, InRotation(n)), i) ==
            if n == 0 || i + n <= backups then Lookup(files, i)
            else if i + n == backups + 1 || i > backups then None
            else Lookup(files, i - 1)
  {
    if n > 0 { StepsLeaveAHole(files, backups, n); }
    hide Written, RotateSteps;
    assert n == 0 ==> RotateSteps(files, backups, 0) == files by { NoSteps(files, backups); }
  }

  lemma NoSteps(files: Files, backups: nat)
    ensures RotateSteps(files, backups, 0) == files
  {
  }

  lemma TextIsWritten<T>(c: Codec<T>, t: T, fault: Fault)
    ensures Written(c, t, fault) == if fault.OnOpen? then "" else Text(c, t, fault)
  {
    var line := c.encode(t) + "\n";
    if fault.Cut? {
      if fault.length <= |c.encode(t)| {
        assert line[..fault.length] == c.encode(t)[..fault.length];
      }
    }
  }

  // ---- the log ----

  lemma {:induction false} LogShifts<T>(c: Codec<T>, files: Files, after: Files, n: nat)
    requires n >= 1 && forall i: nat :: 1 <= i < n ==> FileRecords(c, after, i) == FileRecords(c, files, i - 1)
    ensures LogTo(c, after, n) == LogTo(c, files, n - 1) + FileRecords(c, after, 0)
    decreases n
  {
    hide FileRecords;
    if n == 1 {
      assert LogTo(c, after, 1) == FileRecords(c, after, 0) + [];
      assert LogTo(c, after, 1) == FileRecords(c, after, 0) == [] + FileRecords(c, after, 0);
    } else {
      LogShifts(c, files, after, n - 1);
      assert FileRecords(c, files, n - 2) + (LogTo(c, files, n - 2) + FileRecords(c, after, 0)) ==
             LogTo(c, files, n - 1) + FileRecords(c, after, 0);
    }
  }

  lemma LogWithRoom<T(!new)>(
    c: Codec<T>, files: Files, backups: nat, maximum: nat, t: T, history: seq<T>)
    requires Lawful(c) && Refines(c, files, backups, history) && |c.encode(t)| <= 262_144
    requires HasRoom(c, files, maximum, t)
    ensures LogTo(c, Append(c, files, backups, maximum, t, NoFault), backups + 1) ==
            LogTo(c, files, backups + 1) + [t]
  {
    var after := Append(c, files, backups, maximum, t, NoFault);
    EmptyIsWellFormed(c);
    AppendWithRoom(c, files, backups, maximum, t, NoFault);
    WellFormedAppend(c, Active(files), t);
    hide Append, WellFormed, Records, LogTo, Lawful, Refines;
    assert after == files[0 := Active(files) + (c.encode(t) + "\n")];
    assert FileRecords(c, after, 0) == FileRecords(c, files, 0) + [t];
    LogWithActive(c, files, after, backups + 1, [t]);
  }

  lemma OneRecord<T(!new)>(c: Codec<T>, t: T)
    requires Lawful(c) && |c.encode(t)| <= 262_144
    ensures Records(c, c.encode(t) + "\n") == [t]
  {
    EmptyIsWellFormed(c);
    WellFormedAppend(c, "", t);
    hide WellFormed, Records, Lawful;
    assert "" + (c.encode(t) + "\n") == c.encode(t) + "\n" && [] + [t] == [t];
  }

  lemma AppendShifts<T>(c: Codec<T>, files: Files, backups: nat, maximum: nat, t: T, line: Bytes)
    requires |c.encode(t)| <= 262_144 && !HasRoom(c, files, maximum, t) && line == c.encode(t) + "\n"
    requires forall j :: j in files ==> j <= backups
    ensures forall i: nat :: Lookup(Append(c, files, backups, maximum, t, NoFault), i) ==
              if i == 0 then Some(line) else if i <= backups then Lookup(files, i - 1) else None
  {
    hide Append, Lookup, HasRoom;
    forall i: nat ensures Lookup(Append(c, files, backups, maximum, t, NoFault), i) ==
        if i == 0 then Some(line) else if i <= backups then Lookup(files, i - 1) else None {
      AppendWithoutRoom(c, files, backups, maximum, t, NoFault, i);
    }
  }

  lemma LogWithoutRoom<T(!new)>(c: Codec<T>, files: Files, backups: nat, maximum: nat, t: T)
    requires Lawful(c) && |c.encode(t)| <= 262_144 && forall j :: j in files ==> j <= backups
    requires !HasRoom(c, files, maximum, t)
    ensures LogTo(c, Append(c, files, backups, maximum, t, NoFault), backups + 1) == LogTo(c, files, backups) + [t]
  {
    var after, line := Append(c, files, backups, maximum, t, NoFault), c.encode(t) + "\n";
    OneRecord(c, t);
    AppendShifts(c, files, backups, maximum, t, line);
    hide Append, Records, LogTo, Lawful, HasRoom, FileRecords, Lookup;
    LookupShifts(c, files, after, backups, t, line);
    LogShifts(c, files, after, backups + 1);
  }

  /** Nothing is dropped while there is room; otherwise exactly the records of the oldest file are. */
  lemma AppendDropsOldestOnly<T(!new)>(
    c: Codec<T>, files: Files, backups: nat, maximum: nat, t: T, history: seq<T>)
    requires Lawful(c) && Refines(c, files, backups, history) && |c.encode(t)| <= 262_144
    ensures var after := Append(c, files, backups, maximum, t, NoFault);
            if HasRoom(c, files, maximum, t)
            then LogTo(c, after, backups + 1) == LogTo(c, files, backups + 1) + [t]
            else LogTo(c, files, backups + 1) == FileRecords(c, files, backups) + LogTo(c, files, backups)
                 && LogTo(c, after, backups + 1) == LogTo(c, files, backups) + [t]
  {
    LogUnfolds(c, files, backups);
    if HasRoom(c, files, maximum, t) {
      LogWithRoom(c, files, backups, maximum, t, history);
    } else {
      LogWithoutRoom(c, files, backups, maximum, t);
    }
    hide Append, Records, LogTo, HasRoom;
  }

  lemma LookupShifts<T>(c: Codec<T>, files: Files, after: Files, backups: nat, t: T, line: Bytes)
    requires forall i: nat :: Lookup(after, i) ==
               if i == 0 then Some(line) else if i <= backups then Lookup(files, i - 1) else None
    requires Records(c, line) == [t]
    ensures FileRecords(c, after, 0) == [t]
    ensures forall i: nat :: 1 <= i <= backups ==> FileRecords(c, after, i) == FileRecords(c, files, i - 1)
  {
    hide Records;
    assert Lookup(after, 0) == Some(line);
    forall i: nat | 1 <= i <= backups ensures FileRecords(c, after, i) == FileRecords(c, files, i - 1) {
      assert Lookup(after, i) == Lookup(files, i - 1);
    }
  }

  lemma LogUnfolds<T>(c: Codec<T>, files: Files, backups: nat)
    ensures LogTo(c, files, backups + 1) == FileRecords(c, files, backups) + LogTo(c, files, backups)
  {
  }
}
