/** The trace directory as it is changed in place: rotation, append, and explicit repair with
    quarantine (core/execution_trace.py:799-852, core/state_integrity.py:729-883). */
module TraceFiles {
  import opened Options
  import opened TraceLines
  import opened TraceRepair
  import opened TraceStore
  import opened TraceScan

  datatype RepairOp = CopyToQuarantine | MoveToQuarantine | Rewrite

  /** What repair makes of one file. */
  datatype Fate =
    | Missing | TooManyLines | Sound | Recovered | Replaced | MovedAway
    | NotQuarantined | NotRewritten

  /** Name of a quarantined copy: its source and the shortened digest of its bytes. */
  type Name = (nat, nat)

  type Quarantine = map<Name, Bytes>

  /** A copy is in quarantine afterwards: it was there, or could be written under a free name. */
  predicate Accepts(q: Quarantine, name: Name, content: Bytes, writable: bool) {
    if name in q then q[name] == content else writable
  }

  function FateOf<T>(
    c: Codec<T>, file: Option<Bytes>, i: nat, maximum: nat, q: Quarantine,
    digest: Bytes -> nat, faults: set<(nat, RepairOp)>): Fate
  {
    match file
    case None => Missing
    case Some(s) =>
      var a := Analyze(c, s, maximum);
      if a.limitReached then TooManyLines
      else if a.oversized then (if (i, MoveToQuarantine) in faults then NotQuarantined else MovedAway)
      else if a.corrupt then
        if !Accepts(q, (i, digest(s)), s, (i, CopyToQuarantine) !in faults) then NotQuarantined
        else if (i, Rewrite) in faults then NotRewritten
        else Replaced
      else if a.torn then (if (i, Rewrite) in faults then NotRewritten else Recovered)
      else Sound
  }

  function FileAfter<T>(c: Codec<T>, file: Option<Bytes>, maximum: nat, fate: Fate): Option<Bytes> {
    match (fate, file)
    case (Recovered, Some(s)) => Some(Analyze(c, s, maximum).repaired)
    case (Replaced, Some(s)) => Some(Analyze(c, s, maximum).repaired)
    case (MovedAway, _) => None
    case _ => file
  }

  class TraceDirectory {
    var files: map<nat, Bytes>
    var quarantine: map<Name, Bytes>
    var moved: seq<(nat, Bytes)>  // oversized files, moved under random names

    constructor ()
      ensures files == map[] && quarantine == map[] && moved == []
    {
      files, quarantine, moved := map[], map[], [];
    }

    /** `stopAt` is the number of file operations that succeed before one raises. */
    method Rotate(backups: nat, stopAt: Option<nat>) returns (finished: bool)
      modifies this`files
      ensures finished <==> stopAt.None? || stopAt.value > backups
      ensures files == RotateSteps(old(files), backups, if finished then backups + 1 else stopAt.value)
    {
      var done := 0;
      if stopAt == Some(done) { return false; }
      files := files - {backups};
      done := 1;
      while done <= backups
        invariant 1 <= done <= backups + 1
        invariant stopAt.Some? ==> stopAt.value >= done
        invariant files == RotateSteps(old(files), backups, done)
      {
        if stopAt == Some(done) { return false; }
        var source := backups - done;
        if source in files {
          var bytes := files[source];
          files := (files - {source})[source + 1 := bytes];
        }
        done := done + 1;
      }
      return true;
    }

    method AppendTrace<T>(c: Codec<T>, backups: nat, maximum: nat, t: T, fault: Fault)
      modifies this`files
      ensures files == Append(c, old(files), backups, maximum, t, fault)
    {
      var line := c.encode(t);
      if |line| > MAX_TRACE_CHARS { return; }
      var encoded := line + "\n";
      var currentSize := if 0 in files then |files[0]| else 0;
      if currentSize + |encoded| > maximum {
        var finished := Rotate(backups, if fault.InRotation? then Some(fault.n) else None);
        if !finished { return; }
      }
      if fault.OnOpen? { return; }
      if 0 !in files { files := files[0 := ""]; }
      files := files[0 := files[0] + Written(c, t, fault)];
    }

    method QuarantineCopy(i: nat, content: Bytes, name: Name, writable: bool) returns (kept: bool)
      modifies this`quarantine
      ensures kept <==> Accepts(old(quarantine), name, content, writable)
      ensures quarantine ==
              if name !in old(quarantine) && writable then old(quarantine)[name := content] else old(quarantine)
      ensures kept ==> name in quarantine && quarantine[name] == content
    {
      if name in quarantine { return quarantine[name] == content; }
      if !writable { return false; }
      quarantine := quarantine[name := content];
      return true;
    }

    method RepairOne<T>(
      c: Codec<T>, i: nat, maximum: nat, digest: Bytes -> nat, faults: set<(nat, RepairOp)>)
      returns (fate: Fate)
      modifies this
      ensures fate == FateOf(c, Lookup(old(files), i), i, maximum, old(quarantine), digest, faults)
      ensures files == SetFile(old(files), i, FileAfter(c, Lookup(old(files), i), maximum, fate))
      ensures Grows(old(quarantine), quarantine, i)
      ensures fate == Replaced ==> Holds(quarantine, (i, digest(old(files)[i])), old(files)[i])
      ensures moved == old(moved) + (if fate == MovedAway then [(i, old(files)[i])] else [])
    {
      if i !in files { return Missing; }
      var content := files[i];
      var analysis := AnalyzeTrace(c, Some(content), maximum);
      var a := analysis.value;
      assert files[i := content] == files;
      if a.limitReached { return TooManyLines; }
      if a.corrupt {
        if a.original == "" {
          assert a.oversized;
          if (i, MoveToQuarantine) in faults { return NotQuarantined; }
          files := files - {i};
          moved := moved + [(i, content)];
          return MovedAway;
        }
        var kept := QuarantineCopy(i, content, (i, digest(content)), (i, CopyToQuarantine) !in faults);
        if !kept { return NotQuarantined; }
        if (i, Rewrite) in faults { return NotRewritten; }
        files := files[i := a.repaired];
        return Replaced;
      }
      if a.torn {
        if (i, Rewrite) in faults { return NotRewritten; }
        files := files[i := a.repaired];
        return Recovered;
      }
      return Sound;
    }

    /** The trace part of `repair_local_state`.  The four sets are the files counted as
        recovered, as quarantined, as failed, and as past the record limit. */
    method RepairTraces<T>(
      c: Codec<T>, scanned: nat, maximum: nat, digest: Bytes -> nat, faults: set<(nat, RepairOp)>)
      returns (recovered: set<nat>, quarantined: set<nat>, failed: set<nat>, limited: set<nat>)
      modifies this
      ensures forall i: nat :: Lookup(files, i) ==
                RepairedFile(c, old(files), i, scanned, maximum, old(quarantine), digest, faults)
      ensures forall i: nat ::
                var fate := ScannedFate(c, old(files), i, scanned, maximum, old(quarantine), digest, faults);
                && (i in recovered <==> fate == Some(Recovered))
                && (i in quarantined <==> fate == Some(Replaced) || fate == Some(MovedAway))
                && (i in failed <==> fate == Some(NotQuarantined) || fate == Some(NotRewritten))
                && (i in limited <==> fate == Some(TooManyLines))
      ensures forall i: nat :: i in old(files) &&
                ScannedFate(c, old(files), i, scanned, maximum, old(quarantine), digest, faults) == Some(Replaced)
                ==> Holds(quarantine, (i, digest(old(files)[i])), old(files)[i])
      ensures forall i: nat :: i in old(files) &&
                ScannedFate(c, old(files), i, scanned, maximum, old(quarantine), digest, faults) == Some(MovedAway)
                ==> (i, old(files)[i]) in moved
      ensures forall name :: name in old(quarantine) ==> Holds(quarantine, name, old(quarantine)[name])
    {
      hide FateOf, FileAfter;
      recovered, quarantined, failed, limited := {}, {}, {}, {};
      ghost var files0, quarantine0 := files, quarantine;
      for i := 0 to scanned
        invariant forall j: nat ::
                    Lookup(files, j) == RepairedFile(c, files0, j, i, maximum, quarantine0, digest, faults)
        invariant forall name :: name in quarantine0 ==> Holds(quarantine, name, quarantine0[name])
        invariant forall name :: name in quarantine && name.0 >= i ==> Holds(quarantine0, name, quarantine[name])
        invariant forall j: nat ::
          var fate := ScannedFate(c, files0, j, i, maximum, quarantine0, digest, faults);
          && (j in recovered <==> fate == Some(Recovered))
          && (j in quarantined <==> fate == Some(Replaced) || fate == Some(MovedAway))
          && (j in failed <==> fate == Some(NotQuarantined) || fate == Some(NotRewritten))
          && (j in limited <==> fate == Some(TooManyLines))
        invariant forall j: nat ::
          j in files0 && ScannedFate(c, files0, j, i, maximum, quarantine0, digest, faults) == Some(Replaced)
          ==> Holds(quarantine, (j, digest(files0[j])), files0[j])
        invariant forall j: nat ::
          j in files0 && ScannedFate(c, files0, j, i, maximum, quarantine0, digest, faults) == Some(MovedAway)
          ==> (j, files0[j]) in moved
      {
        ghost var before, quarantine1 := files, quarantine;
        assert Lookup(files, i) == Lookup(files0, i);
        FateUnaffected(c, Lookup(files0, i), i, maximum, quarantine0, quarantine, digest, faults);
        var fate := RepairOne(c, i, maximum, digest, faults);
        match fate {
          case Recovered => recovered := recovered + {i};
          case Replaced => quarantined := quarantined + {i};
          case MovedAway => quarantined := quarantined + {i};
          case NotQuarantined => failed := failed + {i};
          case NotRewritten => failed := failed + {i};
          case TooManyLines => limited := limited + {i};
          case _ =>
        }
        forall j: nat ensures Lookup(files, j) ==
            RepairedFile(c, files0, j, i + 1, maximum, quarantine0, digest, faults) {
          assert Lookup(before, j) == RepairedFile(c, files0, j, i, maximum, quarantine0, digest, faults);
        }
      }
    }
  }

  function SetFile(files: Files, i: nat, bytes: Option<Bytes>): Files {
    match bytes case Some(s) => files[i := s] case None => files - {i}
  }

  predicate Holds(q: Quarantine, name: Name, content: Bytes) { name in q && q[name] == content }

  /** Only copies of file i were added, and none was overwritten. */
  ghost predicate Grows(before: Quarantine, after: Quarantine, i: nat) {
    && (forall name :: name in before ==> Holds(after, name, before[name]))
    && (forall name :: name in after && name.0 != i ==> name in before)
  }

  function ScannedFate<T>(
    c: Codec<T>, files: Files, i: nat, scanned: nat, maximum: nat, q: Quarantine,
    digest: Bytes -> nat, faults: set<(nat, RepairOp)>): Option<Fate>
  {
    if i < scanned then Some(FateOf(c, Lookup(files, i), i, maximum, q, digest, faults)) else None
  }

  function RepairedFile<T>(
    c: Codec<T>, files: Files, i: nat, scanned: nat, maximum: nat, q: Quarantine,
    digest: Bytes -> nat, faults: set<(nat, RepairOp)>): Option<Bytes>
  {
    match ScannedFate(c, files, i, scanned, maximum, q, digest, faults)
    case Some(fate) => FileAfter(c, Lookup(files, i), maximum, fate)
    case None => Lookup(files, i)
  }

  lemma FateUnaffected<T>(
    c: Codec<T>, file: Option<Bytes>, i: nat, maximum: nat, q0: Quarantine, q1: Quarantine,
    digest: Bytes -> nat, faults: set<(nat, RepairOp)>)
    requires forall name :: name in q0 ==> Holds(q1, name, q0[name])
    requires forall name :: name in q1 && name.0 >= i ==> Holds(q0, name, q1[name])
    ensures FateOf(c, file, i, maximum, q1, digest, faults) == FateOf(c, file, i, maximum, q0, digest, faults)
  {
  }

  // ---- what repair means for a reader ----

  /** The files after a repair. */
  function RepairFiles<T>(
    c: Codec<T>, files: Files, scanned: nat, maximum: nat, q: Quarantine,
    digest: Bytes -> nat, faults: set<(nat, RepairOp)>): Files
  {
    map i | i in files && RepairedFile(c, files, i, scanned, maximum, q, digest, faults).Some?
      :: RepairedFile(c, files, i, scanned, maximum, q, digest, faults).value
  }

  lemma RepairFilesLookup<T>(
    c: Codec<T>, files: Files, i: nat, scanned: nat, maximum: nat, q: Quarantine,
    digest: Bytes -> nat, faults: set<(nat, RepairOp)>)
    ensures Lookup(RepairFiles(c, files, scanned, maximum, q, digest, faults), i) ==
            RepairedFile(c, files, i, scanned, maximum, q, digest, faults)
  {
    hide FateOf;
  }

  /** Repair moves a file away exactly if it is scanned and over the limit, and can be moved. */
  predicate Moves(files: Files, i: nat, scanned: nat, maximum: nat, faults: set<(nat, RepairOp)>) {
    i in files && i < scanned && |files[i]| > maximum && (i, MoveToQuarantine) !in faults
  }

  /** A file is removed, left alone, or rewritten with its valid lines. */
  lemma FateChoices<T>(
    c: Codec<T>, s: Bytes, i: nat, maximum: nat, q: Quarantine, digest: Bytes -> nat, faults: set<(nat, RepairOp)>)
    ensures var after := FileAfter(c, Some(s), maximum, FateOf(c, Some(s), i, maximum, q, digest, faults));
            after in {None, Some(s), Some(Render(Kept(c, SplitLines(s))))}
  {
    hide Render, Kept, SplitLines, SplitKeep, Corrupt, Torn, Accepts;
  }

  lemma FateKeepsRecords<T>(
    c: Codec<T>, s: Bytes, i: nat, maximum: nat, q: Quarantine, digest: Bytes -> nat, faults: set<(nat, RepairOp)>)
    ensures var after := FileAfter(c, Some(s), maximum, FateOf(c, Some(s), i, maximum, q, digest, faults));
            if |s| > maximum && (i, MoveToQuarantine) !in faults then after == None
            else after.Some? && Records(c, after.value) == Records(c, s)
  {
    RepairKeepsRecords(c, s);
    hide Records, Render, Kept, SplitLines, SplitKeep, Corrupt, Torn, Accepts;
  }

  /** Whatever fails, repair keeps the records of every file, except those it moves away. */
  lemma RepairKeepsOrMoves<T>(
    c: Codec<T>, files: Files, i: nat, scanned: nat, maximum: nat, q: Quarantine,
    digest: Bytes -> nat, faults: set<(nat, RepairOp)>)
    ensures var after := RepairFiles(c, files, scanned, maximum, q, digest, faults);
            FileRecords(c, after, i) ==
            if Moves(files, i, scanned, maximum, faults) then [] else FileRecords(c, files, i)
  {
    RepairFilesLookup(c, files, i, scanned, maximum, q, digest, faults);
    if i in files { FateKeepsRecords(c, files[i], i, maximum, q, digest, faults); }
    hide Records, RepairFiles, FateOf, FileAfter;
  }

  /** No repaired file outgrows the limit. */
  ghost predicate Contained<T>(c: Codec<T>, files: Files, maximum: nat) {
    forall i :: i in files && |files[i]| <= maximum ==> |Analyze(c, files[i], maximum).repaired| <= maximum
  }

  /** Besides, no file has more lines than repair looks at. */
  ghost predicate Repairable<T>(c: Codec<T>, files: Files, maximum: nat) {
    && Contained(c, files, maximum)
    && forall i :: i in files && |files[i]| <= maximum ==> |SplitKeep(files[i])| <= MAX_RECOVERY_RECORDS
  }

  lemma RepairedFileReadsAlike<T>(
    c: Codec<T>, files: Files, i: nat, scanned: nat, maximum: nat, q: Quarantine,
    digest: Bytes -> nat, faults: set<(nat, RepairOp)>)
    requires Contained(c, files, maximum)
    ensures NewestIn(c, RepairedFile(c, files, i, scanned, maximum, q, digest, faults), maximum) ==
            NewestIn(c, Lookup(files, i), maximum)
  {
    if i in files && |files[i]| <= maximum { RepairKeepsRecords(c, files[i]); }
  }

  function RepairedView<T>(
    c: Codec<T>, files: Files, scanned: nat, maximum: nat, q: Quarantine,
    digest: Bytes -> nat, faults: set<(nat, RepairOp)>): seq<Option<Bytes>>
  {
    seq(scanned, (i: nat) => RepairedFile(c, files, i, scanned, maximum, q, digest, faults))
  }

  lemma {:induction false} NewestAlike<T>(
    c: Codec<T>, a: seq<Option<Bytes>>, b: seq<Option<Bytes>>, maximum: nat)
    requires |a| == |b|
    requires forall i :: 0 <= i < |a| ==> NewestIn(c, a[i], maximum) == NewestIn(c, b[i], maximum)
    ensures Newest(c, a, maximum) == Newest(c, b, maximum)
    decreases |a|
  {
    if a != [] { NewestAlike(c, a[1..], b[1..], maximum); }
  }

  /** Whichever files could be repaired, were refused, moved or left alone, a scan afterwards
      returns the same traces as before. */
  lemma RepairPreservesScan<T>(
    c: Codec<T>, files: Files, scanned: nat, maximum: nat, quota: nat, q: Quarantine,
    digest: Bytes -> nat, faults: set<(nat, RepairOp)>)
    requires Contained(c, files, maximum)
    ensures ScanFiles(c, RepairedView(c, files, scanned, maximum, q, digest, faults), maximum, quota, Nothing()).traces
         == ScanFiles(c, View(files, scanned), maximum, quota, Nothing()).traces
  {
    var before, after := View(files, scanned), RepairedView(c, files, scanned, maximum, q, digest, faults);
    forall i: nat | i < scanned ensures NewestIn(c, after[i], maximum) == NewestIn(c, before[i], maximum) {
      RepairedFileReadsAlike(c, files, i, scanned, maximum, q, digest, faults);
    }
    NewestAlike(c, before, after, maximum);
    ScanReturnsNewest(c, before, maximum, quota, Nothing());
    ScanReturnsNewest(c, after, maximum, quota, Nothing());
  }

  lemma CompleteRepairOfFile<T>(
    c: Codec<T>, files: Files, i: nat, scanned: nat, maximum: nat, q: Quarantine, digest: Bytes -> nat)
    requires Repairable(c, files, maximum) && i < scanned
    requires i in files ==> Accepts(q, (i, digest(files[i])), files[i], true)
    ensures var after := RepairedFile(c, files, i, scanned, maximum, q, digest, {});
            after.Some? ==> |after.value| <= maximum && forall l :: l in SplitLines(after.value) ==> !Bad(c, l)
  {
    var after := RepairedFile(c, files, i, scanned, maximum, q, digest, {});
    if after.Some? {
      var s := files[i];
      var a := Analyze(c, s, maximum);
      RepairKeepsRecords(c, s);
      if !a.corrupt && !a.torn {
        var lines := SplitLines(s);
        forall l | l in lines ensures !Bad(c, l) {
          var k :| 0 <= k < |lines| && lines[k] == l;
        }
      }
    }
  }

  /** When no step fails and no name is taken by other bytes, a scan after repair also finds
      nothing invalid. */
  lemma CompleteRepairLeavesNothingInvalid<T>(
    c: Codec<T>, files: Files, scanned: nat, maximum: nat, quota: nat, q: Quarantine, digest: Bytes -> nat)
    requires Repairable(c, files, maximum)
    requires forall i: nat :: i in files ==> Accepts(q, (i, digest(files[i])), files[i], true)
    ensures var repaired := RepairedView(c, files, scanned, maximum, q, digest, {});
            ScanFiles(c, repaired, maximum, quota, Nothing()).invalid == 0
  {
    var after := RepairedView(c, files, scanned, maximum, q, digest, {});
    forall i | 0 <= i < |after| && after[i].Some?
      ensures |after[i].value| <= maximum
      ensures forall l :: l in SplitLines(after[i].value) ==> !Bad(c, l)
    {
      CompleteRepairOfFile(c, files, i, scanned, maximum, q, digest);
    }
    FaultlessScan(c, after, maximum, quota, Nothing());
  }
}
