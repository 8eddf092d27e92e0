/** A conservation law for the patch stores: patches that were applied and rolled back
    leave no trace in the files, in whatever order that happened. */
module PatchBalance {
  import opened Options
  import opened PatchStore
  import opened PatchRuns

  /** Patches of `path` that are applied and not rolled back. */
  function Outstanding(s: Store, path: Path): set<Id> {
    set id | id in s.applied && s.applied[id].status == Applied && s.applied[id].target == path
  }

  function Shift(p: Patch, v: Digest): int {
    (if p.proposed == v then 1 else 0) - (if p.original == v then 1 else 0)
  }

  ghost function Shifts(ids: set<Id>, records: map<Id, Patch>, v: Digest): int
    requires ids <= records.Keys
  {
    if ids == {} then 0
    else
      var id :| id in ids;
      Shift(records[id], v) + Shifts(ids - {id}, records, v)
  }

  lemma {:induction false} ShiftsWith(ids: set<Id>, records: map<Id, Patch>, v: Digest, one: Id)
    requires ids <= records.Keys && one in ids
    ensures Shifts(ids, records, v) == Shift(records[one], v) + Shifts(ids - {one}, records, v)
    decreases ids
  {
    var id :| id in ids && Shifts(ids, records, v) == Shift(records[id], v) + Shifts(ids - {id}, records, v);
    if id != one {
      ShiftsWith(ids - {id}, records, v, one);
      ShiftsWith(ids - {one}, records, v, id);
      assert ids - {id} - {one} == ids - {one} - {id};
    }
  }

  lemma {:induction false} ShiftsAgree(ids: set<Id>, a: map<Id, Patch>, b: map<Id, Patch>, v: Digest)
    requires ids <= a.Keys && ids <= b.Keys
    requires forall id :: id in ids ==> Shift(a[id], v) == Shift(b[id], v)
    ensures Shifts(ids, a, v) == Shifts(ids, b, v)
    decreases ids
  {
    if ids != {} {
      var id :| id in ids && Shifts(ids, a, v) == Shift(a[id], v) + Shifts(ids - {id}, a, v);
      ShiftsWith(ids, b, v, id);
      ShiftsAgree(ids - {id}, a, b, v);
    }
  }

  lemma ShiftsMove(ids: set<Id>, a: map<Id, Patch>, b: map<Id, Patch>, v: Digest, id: Id, joins: bool)
    requires ids <= a.Keys && id !in ids && b.Keys == a.Keys + {id}
    requires forall other :: other in a ==> Shift(b[other], v) == Shift(a[other], v)
    ensures Shifts(ids + (if joins then {id} else {}), b, v) ==
            Shifts(ids, a, v) + if joins then Shift(b[id], v) else 0
  {
    hide Shift;
    ShiftsAgree(ids, a, b, v);
    if joins {
      ShiftsWith(ids + {id}, b, v, id);
      assert ids + {id} - {id} == ids;
    } else {
      assert ids + {} == ids;
    }
  }

  function Holds(s: Store, path: Path, v: Digest): int {
    if path in s.files && Sha256(s.files[path]) == v then 1 else 0
  }

  /** What the file would hold if every outstanding patch were taken back. */
  ghost function Balance(s: Store, path: Path, v: Digest): int {
    Holds(s, path, v) - Shifts(Outstanding(s, path), s.applied, v)
  }

  lemma ApplyMovesOutstanding(s: Store, id: Id, path: Path, v: Digest)
    requires Inv(s) && ApplyRefusal(s, id, true).None?
    ensures var t := AppliedStore(s, id);
            && id !in Outstanding(s, path) && t.applied.Keys == s.applied.Keys + {id}
            && Outstanding(t, path) == Outstanding(s, path) + (if s.pending[id].target == path then {id} else {})
            && Shift(t.applied[id], v) == Shift(s.pending[id], v)
            && (forall other :: other in s.applied ==> Shift(t.applied[other], v) == Shift(s.applied[other], v))
  {
    hide ContentIntact, Readable, Actions;
  }

  lemma ApplyMovesHolds(s: Store, id: Id, path: Path, v: Digest)
    requires Inv(s) && ApplyRefusal(s, id, true).None?
    ensures Holds(AppliedStore(s, id), path, v) - Holds(s, path, v) ==
            if s.pending[id].target == path then Shift(s.pending[id], v) else 0
  {
    assert PendingSound(s, id);
  }

  lemma ApplyBalances(s: Store, id: Id, path: Path, v: Digest)
    requires Inv(s) && ApplyRefusal(s, id, true).None?
    ensures Balance(AppliedStore(s, id), path, v) == Balance(s, path, v)
  {
    ApplyMovesOutstanding(s, id, path, v);
    ApplyMovesHolds(s, id, path, v);
    OutstandingAreApplied(s, path);
    hide AppliedStore, Outstanding, Holds, Shift, Inv, ApplyRefusal, Shifts;
    var t := AppliedStore(s, id);
    ShiftsMove(Outstanding(s, path), s.applied, t.applied, v, id, s.pending[id].target == path);
  }

  lemma RollbackMovesOutstanding(s: Store, id: Id, path: Path, v: Digest)
    requires Inv(s) && RollbackRefusal(s, id, true).None?
    ensures var t := RolledBackStore(s, id);
            && Outstanding(t, path) == Outstanding(s, path) - (if s.applied[id].target == path then {id} else {})
            && (s.applied[id].target == path ==> id in Outstanding(s, path))
            && t.applied.Keys == s.applied.Keys
            && (forall other :: other in s.applied ==> Shift(t.applied[other], v) == Shift(s.applied[other], v))
  {
    hide Inv, ContentIntact, Readable;
  }

  lemma RollbackMovesHolds(s: Store, id: Id, path: Path, v: Digest)
    requires Inv(s) && RollbackRefusal(s, id, true).None?
    ensures Holds(s, path, v) - Holds(RolledBackStore(s, id), path, v) ==
            if s.applied[id].target == path then Shift(s.applied[id], v) else 0
  {
    assert AppliedSound(s, id);
  }

  lemma RollbackBalances(s: Store, id: Id, path: Path, v: Digest)
    requires Inv(s) && RollbackRefusal(s, id, true).None?
    ensures Balance(RolledBackStore(s, id), path, v) == Balance(s, path, v)
  {
    RollbackMovesOutstanding(s, id, path, v);
    RollbackMovesHolds(s, id, path, v);
    hide RolledBackStore, Outstanding, Holds, Shift, Inv;
    var t := RolledBackStore(s, id);
    if s.applied[id].target == path {
      ShiftsWith(Outstanding(s, path), s.applied, v, id);
    } else {
      assert Outstanding(s, path) - {} == Outstanding(s, path);
    }
    OutstandingAreApplied(s, path);
    ShiftsAgree(Outstanding(t, path), s.applied, t.applied, v);
  }

  lemma OutstandingAreApplied(s: Store, path: Path)
    ensures Outstanding(s, path) <= s.applied.Keys
  {
  }

  lemma NextBalances(s: Store, e: Event, path: Path, v: Digest)
    requires Inv(s) && Admissible(s, e) && !(e.Edit? && e.path == path)
    ensures Balance(Next(s, e), path, v) == Balance(s, path, v)
  {
    match e
    case DoPropose(id, target, content, d) =>
      assert Outstanding(Next(s, e), path) == Outstanding(s, path);
    case DoApply(id, confirmed, d) =>
      var (t, result) := Apply(s, id, confirmed, d);
      ApplyIsAtomic(s, id, confirmed, d);
      if result.Ok? { ApplyBalances(s, id, path, v); }
    case DoRollback(id, confirmed, d) =>
      var (t, result) := Rollback(s, id, confirmed, d);
      RollbackIsAtomic(s, id, confirmed, d);
      if result.Ok? { RollbackBalances(s, id, path, v); }
    case Edit(_, _) =>
      assert Outstanding(Next(s, e), path) == Outstanding(s, path);
  }

  lemma {:induction false} RunBalances(s: Store, events: seq<Event>, path: Path, v: Digest)
    requires Inv(s) && AdmissibleRun(s, events)
    requires forall e :: e in events ==> !(e.Edit? && e.path == path)
    ensures Balance(Run(s, events), path, v) == Balance(s, path, v)
    decreases |events|
  {
    if events != [] {
      NextBalances(s, events[0], path, v);
      NextKeepsInv(s, events[0]);
      RunBalances(Next(s, events[0]), events[1..], path, v);
    }
  }

  /** After any admissible run, however its applies, rollbacks and failures are ordered, a
      file nobody else edited is what it was as soon as no patch of it is outstanding. */
  lemma AllRolledBackRestoresFile(s: Store, events: seq<Event>, path: Path)
    requires Inv(s) && AdmissibleRun(s, events)
    requires forall e :: e in events ==> !(e.Edit? && e.path == path)
    requires Outstanding(s, path) == {} && Outstanding(Run(s, events), path) == {}
    ensures path in Run(s, events).files <==> path in s.files
    ensures path in s.files ==> Run(s, events).files[path] == s.files[path]
  {
    var t := Run(s, events);
    forall v ensures Holds(t, path, v) == Holds(s, path, v) {
      RunBalances(s, events, path, v);
    }
    if path in t.files { assert Holds(t, path, Sha256(t.files[path])) == 1; }
    if path in s.files { assert Holds(s, path, Sha256(s.files[path])) == 1; }
  }
}
