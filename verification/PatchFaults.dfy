/** What the patch tools keep over every run when any step may fail, those of the exception
    handlers included (tools/patch_tools.py:417-666). */
module PatchFaults {
  import opened Options
  import opened PatchStore
  import opened PatchRuns

  // ---- the weaker invariant ----

  function StatusOf(s: Store, id: Id): Option<Status> {
    if id in s.applied then Some(s.applied[id].status) else None
  }

  /** Each action is recorded at most once and in order; a recorded patch is not pending any more;
      a rollback is recorded only of a rolled-back patch, which is never pending again; and a
      patch whose record could not be dropped keeps its backup. */
  predicate Orderly(actions: seq<Action>, pending: bool, status: Option<Status>, saved: bool) {
    && (actions == [] || actions == [DidApply] || actions == [DidRollback] || actions == [DidApply, DidRollback])
    && (actions != [] ==> status.Some? && !pending)
    && (DidRollback in actions ==> status == Some(RolledBack))
    && (status == Some(RolledBack) ==> !pending)
    && (pending && status.Some? ==> saved)
    && status != Some(Pending)
  }

  predicate OrderlyAt(s: Store, id: Id) {
    Orderly(Actions(s.history, id), id in s.pending, StatusOf(s, id), id in s.backups)
  }

  ghost predicate AllOrderly(s: Store) { forall id :: OrderlyAt(s, id) }

  /** A new patch gets an identifier that no patch has. */
  predicate Unused(s: Store, e: Event) {
    e.DoPropose? ==> e.id !in s.pending && e.id !in s.applied
  }

  predicate UnusedRun(s: Store, events: seq<Event>)
    decreases |events|
  {
    events != [] ==> Unused(s, events[0]) && UnusedRun(Next(s, events[0]), events[1..])
  }

  // ---- one step ----

  /** All that is known of one patch is the same. */
  predicate SameFor(s: Store, t: Store, id: Id) {
    && (id in s.pending <==> id in t.pending) && (id in s.applied <==> id in t.applied)
    && (id in s.applied && id in t.applied ==> s.applied[id] == t.applied[id])
    && (id in s.backups <==> id in t.backups) && Actions(t.history, id) == Actions(s.history, id)
  }

  lemma ForwardSparesOthers(s: Store, id: Id, d: Disk, other: Id)
    requires id in s.pending && s.pending[id].target in s.files && other != id
    ensures SameFor(s, ApplyForward(s, id, d), other)
  {
    hide Actions, ProposedBytes;
    ActionsAppend(s.history, Entry(id, s.pending[id].target, DidApply), other);
  }

  lemma UndoSparesOthers(now: Store, p: Patch, id: Id, raw: Bytes, d: Disk, other: Id)
    requires other != id
    ensures SameFor(now, ApplyUndo(now, p, id, raw, d), other)
  {
    hide Actions;
  }

  lemma SuccessSparesOthers(s: Store, id: Id, other: Id)
    requires id in s.pending && s.pending[id].target in s.files && other != id
    ensures SameFor(s, AppliedStore(s, id), other)
  {
    hide Actions, ProposedBytes;
    ActionsAppend(s.history, Entry(id, s.pending[id].target, DidApply), other);
  }

  lemma ApplySparesOthers(s: Store, id: Id, confirmed: bool, d: Disk, other: Id)
    requires other != id
    ensures SameFor(s, Apply(s, id, confirmed, d).0, other)
  {
    if ApplyRefusal(s, id, confirmed).None? {
      var p := s.pending[id];
      SuccessSparesOthers(s, id, other);
      ForwardSparesOthers(s, id, d, other);
      UndoSparesOthers(ApplyForward(s, id, d), p, id, s.files[p.target], d, other);
      hide Actions, ApplyRefusal, ApplyForward, ApplyUndo, AppliedStore;
    }
  }

  lemma RollbackSparesOthers(s: Store, id: Id, confirmed: bool, d: Disk, other: Id)
    requires other != id
    ensures SameFor(s, Rollback(s, id, confirmed, d).0, other)
  {
    hide Actions, ContentIntact, Readable, ProposedBytes;
    if RollbackRefusal(s, id, confirmed).None? {
      ActionsAppend(s.history, Entry(id, s.applied[id].target, DidRollback), other);
    }
  }

  lemma ApplyKeepsOrder(s: Store, id: Id, confirmed: bool, d: Disk)
    requires OrderlyAt(s, id)
    ensures OrderlyAt(Apply(s, id, confirmed, d).0, id)
  {
    hide Actions, ContentIntact, Readable, ProposedBytes;
    if ApplyRefusal(s, id, confirmed).None? {
      ActionsAppend(s.history, Entry(id, s.pending[id].target, DidApply), id);
      if d.Holds(WriteBackup) && !d.ApplyRuns(ProposedBytes(s.pending[id])) {
        ApplyForwardStores(s, id, d);
        hide ApplyForward;
      }
    }
  }

  lemma RollbackKeepsOrder(s: Store, id: Id, confirmed: bool, d: Disk)
    requires OrderlyAt(s, id)
    ensures OrderlyAt(Rollback(s, id, confirmed, d).0, id)
  {
    hide Actions, ContentIntact, Readable, ProposedBytes;
    if RollbackRefusal(s, id, confirmed).None? {
      ActionsAppend(s.history, Entry(id, s.applied[id].target, DidRollback), id);
    }
  }

  lemma NextKeepsOrder(s: Store, e: Event, id: Id)
    requires OrderlyAt(s, id) && Unused(s, e)
    ensures OrderlyAt(Next(s, e), id)
  {
    hide Actions, Orderly, Apply, Rollback;
    match e
    case DoPropose(other, target, content, d) => ProposeKeepsOrder(s, other, target, content, d, id);
    case DoApply(other, confirmed, d) =>
      if other == id { ApplyKeepsOrder(s, id, confirmed, d); } else { ApplySparesOthers(s, other, confirmed, d, id); }
    case DoRollback(other, confirmed, d) =>
      if other == id {
        RollbackKeepsOrder(s, id, confirmed, d);
      } else {
        RollbackSparesOthers(s, other, confirmed, d, id);
      }
    case Edit(_, _) =>
  }

  lemma ProposeKeepsOrder(s: Store, other: Id, target: Path, content: string, d: Disk, id: Id)
    requires OrderlyAt(s, id) && other !in s.pending && other !in s.applied
    ensures OrderlyAt(Propose(s, other, target, content, d).0, id)
  {
    hide Actions, Refuse, Drafted;
  }

  // ---- whole runs ----

  /** Whatever fails, over every run the history of each patch names applying and rolling back at
      most once each, and in that order. */
  lemma {:induction false} EveryRunIsOrderly(s: Store, events: seq<Event>)
    requires AllOrderly(s) && UnusedRun(s, events)
    ensures AllOrderly(Run(s, events))
    decreases |events|
  {
    hide OrderlyAt, Next;
    if events != [] {
      forall id ensures OrderlyAt(Next(s, events[0]), id) { NextKeepsOrder(s, events[0], id); }
      EveryRunIsOrderly(Next(s, events[0]), events[1..]);
    }
  }

  lemma InvIsOrderly(s: Store)
    requires Inv(s)
    ensures AllOrderly(s)
  {
    hide Actions;
    forall id ensures OrderlyAt(s, id) {
      if id in s.pending { assert PendingSound(s, id); }
      if id in s.applied { assert AppliedSound(s, id); }
    }
  }

  lemma RolledBackStays(s: Store, e: Event, id: Id)
    requires OrderlyAt(s, id) && Unused(s, e) && StatusOf(s, id) == Some(RolledBack)
    ensures id in Next(s, e).applied && Next(s, e).applied[id] == s.applied[id]
  {
    hide Actions;
    match e
    case DoPropose(_, _, _, _) =>
    case DoApply(other, confirmed, d) =>
      if other != id { ApplySparesOthers(s, other, confirmed, d, id); }
    case DoRollback(other, confirmed, d) =>
      if other != id { RollbackSparesOthers(s, other, confirmed, d, id); }
    case Edit(_, _) =>
  }

  /** Whatever fails later, a patch once rolled back stays so, and every apply or rollback of it
      is refused. */
  lemma {:induction false} RolledBackForEver(s: Store, events: seq<Event>, id: Id)
    requires AllOrderly(s) && UnusedRun(s, events) && StatusOf(s, id) == Some(RolledBack)
    ensures var t := Run(s, events);
            && id in t.applied && t.applied[id] == s.applied[id]
            && (forall confirmed, d :: Apply(t, id, confirmed, d) == (t, Apply(t, id, confirmed, d).1))
            && (forall confirmed, d :: Rollback(t, id, confirmed, d) == (t, Rollback(t, id, confirmed, d).1))
    decreases |events|
  {
    assert OrderlyAt(s, id);
    if events != [] {
      RolledBackStays(s, events[0], id);
      forall other ensures OrderlyAt(Next(s, events[0]), other) { NextKeepsOrder(s, events[0], other); }
      hide OrderlyAt, Next, Apply, Rollback;
      RolledBackForEver(Next(s, events[0]), events[1..], id);
    }
  }

  /** Only one file has changed. */
  ghost predicate OnlyAt(before: map<Path, Bytes>, after: map<Path, Bytes>, target: Path) {
    after.Keys == before.Keys && forall path :: path in before && path != target ==> after[path] == before[path]
  }

  lemma ForwardOnlyAt(s: Store, id: Id, d: Disk)
    requires id in s.pending && s.pending[id].target in s.files
    ensures OnlyAt(s.files, ApplyForward(s, id, d).files, s.pending[id].target)
    ensures OnlyAt(s.files, AppliedStore(s, id).files, s.pending[id].target)
  {
    hide ProposedBytes;
  }

  lemma UndoOnlyAt(now: Store, p: Patch, id: Id, raw: Bytes, d: Disk)
    requires p.target in now.files
    ensures OnlyAt(now.files, ApplyUndo(now, p, id, raw, d).files, p.target)
  {
  }

  lemma ApplyOnlyAt(s: Store, id: Id, confirmed: bool, d: Disk)
    ensures ApplyRefusal(s, id, confirmed).Some? ==> Apply(s, id, confirmed, d).0 == s
    ensures ApplyRefusal(s, id, confirmed).None? ==>
              OnlyAt(s.files, Apply(s, id, confirmed, d).0.files, s.pending[id].target)
  {
    if ApplyRefusal(s, id, confirmed).None? {
      var p := s.pending[id];
      ForwardOnlyAt(s, id, d);
      UndoOnlyAt(ApplyForward(s, id, d), p, id, s.files[p.target], d);
      hide ApplyRefusal, ApplyForward, ApplyUndo, AppliedStore;
    }
  }

  lemma RollbackOnlyAt(s: Store, id: Id, confirmed: bool, d: Disk)
    ensures RollbackRefusal(s, id, confirmed).Some? ==> Rollback(s, id, confirmed, d).0 == s
    ensures RollbackRefusal(s, id, confirmed).None? ==>
              OnlyAt(s.files, Rollback(s, id, confirmed, d).0.files, s.applied[id].target)
  {
    hide ContentIntact, Readable, ProposedBytes;
  }

  /** A call changes a file only if the patch was made from its bytes, or made them; whatever
      fails, bytes that somebody else wrote are not overwritten. */
  lemma OnlyExpectedBytesChange(s: Store, id: Id, confirmed: bool, d: Disk, path: Path)
    requires path in s.files
    ensures var t := Apply(s, id, confirmed, d).0;
            path in t.files && (t.files[path] != s.files[path] ==>
              && confirmed && id in s.pending && s.pending[id].target == path
              && s.pending[id].original == Sha256(s.files[path]))
    ensures var t := Rollback(s, id, confirmed, d).0;
            path in t.files && (t.files[path] != s.files[path] ==>
              && confirmed && id in s.applied && s.applied[id].target == path
              && s.applied[id].proposed == Sha256(s.files[path]))
  {
    hide ContentIntact, Readable, ProposedBytes, AppliedStore, ApplyFailed, RolledBackStore, RollbackFailed;
    ApplyOnlyAt(s, id, confirmed, d);
    RollbackOnlyAt(s, id, confirmed, d);
    hide Apply, Rollback;
  }

  // ---- when the history is a life ----

  /** What is recorded as applied, and not pending any more, has its entry in the history. */
  predicate Told(s: Store, id: Id) {
    OrderlyAt(s, id) && (id in s.applied && id !in s.pending ==> DidApply in Actions(s.history, id))
  }

  /** No apply fails to write its history entry and, in its handler, to drop its record. */
  predicate Tells(e: Event) { e.DoApply? ==> e.d.Holds(AppendHistory) || e.d.Holds(UnlinkRecord) }

  lemma ApplyTells(s: Store, id: Id, confirmed: bool, d: Disk)
    requires Told(s, id) && (d.Holds(AppendHistory) || d.Holds(UnlinkRecord))
    ensures Told(Apply(s, id, confirmed, d).0, id)
  {
    ApplyKeepsOrder(s, id, confirmed, d);
    hide Actions, ContentIntact, Readable, ProposedBytes, Orderly;
    if ApplyRefusal(s, id, confirmed).None? {
      NotRecorded(s, id);
      ActionsAppend(s.history, Entry(id, s.pending[id].target, DidApply), id);
      if !d.ApplyRuns(ProposedBytes(s.pending[id])) { FailedApplyTells(s, id, d); }
      hide ApplyFailed;
    }
  }

  lemma FailedApplyTells(s: Store, id: Id, d: Disk)
    requires id in s.pending && s.pending[id].target in s.files && id !in s.applied
    requires !d.ApplyRuns(ProposedBytes(s.pending[id])) && (d.Holds(AppendHistory) || d.Holds(UnlinkRecord))
    ensures id in ApplyFailed(s, id, d).applied ==> id in ApplyFailed(s, id, d).pending
  {
    if d.Holds(WriteBackup) { ApplyForwardStores(s, id, d); }
    hide ApplyForward, ProposedBytes;
  }

  lemma NotRecorded(s: Store, id: Id)
    requires OrderlyAt(s, id) && id in s.pending && id !in s.backups
    ensures id !in s.applied
  {
    hide Actions;
  }

  lemma RollbackTells(s: Store, id: Id, confirmed: bool, d: Disk)
    requires Told(s, id)
    ensures Told(Rollback(s, id, confirmed, d).0, id)
  {
    RollbackKeepsOrder(s, id, confirmed, d);
    hide Actions, ContentIntact, Readable, ProposedBytes, Orderly;
    if RollbackRefusal(s, id, confirmed).None? {
      ActionsAppend(s.history, Entry(id, s.applied[id].target, DidRollback), id);
    }
  }

  lemma NextTells(s: Store, e: Event, id: Id)
    requires Told(s, id) && Unused(s, e) && Tells(e)
    ensures Told(Next(s, e), id)
  {
    NextKeepsOrder(s, e, id);
    hide Actions, Orderly, Apply, Rollback;
    match e
    case DoPropose(other, target, content, d) => hide Refuse, Drafted;
    case DoApply(other, confirmed, d) =>
      if other == id { ApplyTells(s, id, confirmed, d); } else { ApplySparesOthers(s, other, confirmed, d, id); }
    case DoRollback(other, confirmed, d) =>
      if other == id { RollbackTells(s, id, confirmed, d); } else { RollbackSparesOthers(s, other, confirmed, d, id); }
    case Edit(_, _) =>
  }

  /** Over every run in which that does not happen, whatever else fails, the history of each patch
      is a prefix of apply, rollback. */
  lemma {:induction false} ToldHistoryIsALife(s: Store, events: seq<Event>, id: Id)
    requires Told(s, id) && UnusedRun(s, events) && forall e :: e in events ==> Tells(e)
    ensures Told(Run(s, events), id) && Actions(Run(s, events).history, id) <= [DidApply, DidRollback]
    decreases |events|
  {
    if events != [] {
      assert events[0] in events;
      NextTells(s, events[0], id);
      hide Told, Next, Actions;
      ToldHistoryIsALife(Next(s, events[0]), events[1..], id);
    }
  }

  lemma InvIsTold(s: Store, id: Id)
    requires Inv(s)
    ensures Told(s, id)
  {
    InvIsOrderly(s);
    assert OrderlyAt(s, id);
    hide Orderly, OrderlyAt;
    if id in s.applied { assert AppliedSound(s, id); }
  }

  // ---- what failing handlers do to the history ----

  /** An apply that fails after its record was written and its pending file removed, and whose
      handler can neither restore the target nor drop the record. */
  predicate LeavesUnrecorded(p: Patch, d: Disk) {
    && d.Holds(WriteBackup) && d.TargetVerified(ProposedBytes(p)) && d.Holds(WriteRecord) && d.Holds(UnlinkPending)
    && !d.Holds(AppendHistory) && !d.Holds(RestoreTarget) && !d.Holds(UnlinkRecord)
  }

  /** What the failed apply leaves of the patch, the target and the backup. */
  lemma FailedApplyLeaves(s: Store, id: Id, d: Disk)
    requires ApplyRefusal(s, id, true).None? && id !in s.applied && !d.ApplyRuns(ProposedBytes(s.pending[id]))
    ensures var u, p := ApplyFailed(s, id, d), s.pending[id];
            var applied := id in u.applied && id !in u.pending;
            && u.history == s.history && p.target in u.files
            && (LeavesUnrecorded(p, d) ==> u == AppliedStore(s, id).(history := s.history))
            && (applied && !LeavesUnrecorded(p, d) ==> u.files[p.target] == s.files[p.target])
            && (id in u.applied ==> u.applied[id] == p.(status := Applied, backup := Some(id)))
  {
    hide ContentIntact, Readable, ProposedBytes;
    if d.Holds(WriteBackup) {
      ApplyForwardStores(s, id, d);
      RecordOfForward(s, id, d);
      hide ApplyForward;
    }
  }

  lemma RecordOfForward(s: Store, id: Id, d: Disk)
    requires id in s.pending && s.pending[id].target in s.files && id !in s.applied
    ensures var t, p := ApplyForward(s, id, d), s.pending[id];
            && (id in t.applied ==> t.applied[id] == p.(status := Applied, backup := Some(id)))
            && (LeavesUnrecorded(p, d) ==> t == AppliedStore(s, id).(history := s.history))
  {
    hide ProposedBytes;
  }

  lemma RollbackIgnoresHistory(s: Store, history: seq<Entry>, id: Id)
    ensures RollbackRefusal(s.(history := history), id, true) == RollbackRefusal(s, id, true)
    ensures RollbackRefusal(s, id, true).None? ==>
              && Rollback(s, id, true, Flawless) == (RolledBackStore(s, id), Ok)
              && RolledBackStore(s.(history := history), id).files == RolledBackStore(s, id).files
  {
    hide ContentIntact, Readable, ProposedBytes;
  }

  /** After a failed apply the patch can be rolled back, although the history does not say that it
      was applied, exactly under these faults and without a NUL in the proposed content. */
  lemma RollbackAfterFailure(s: Store, id: Id, d: Disk)
    requires Inv(s) && ApplyRefusal(s, id, true).None? && d.Holds(ReadStores)
    requires !d.ApplyRuns(ProposedBytes(s.pending[id]))
    ensures var (s1, did) := Apply(s, id, true, d);
            && did == Err(IoFailure) && Actions(s1.history, id) == []
            && (RollbackRefusal(s1, id, true).None? <==>
                 LeavesUnrecorded(s.pending[id], d) && '\0' !in s.pending[id].content)
  {
    var p := s.pending[id];
    assert Sound(p, id) && Actions(s.history, id) == [] by { assert PendingSound(s, id); }
    FailedApplyLeaves(s, id, d);
    ProposedIsReadable(p);
    RefusalAfterApply(s, id);
    RollbackIgnoresHistory(AppliedStore(s, id), s.history, id);
    hide Inv, Actions, Readable, ProposedBytes, ContentIntact, ApplyFailed, AppliedStore, LeavesUnrecorded;
  }

  /** The rollback then restores the files, and is all the history says of the patch. */
  lemma RollbackWithoutApply(s: Store, id: Id, d: Disk)
    requires Inv(s) && ApplyRefusal(s, id, true).None? && d.Holds(ReadStores)
    requires LeavesUnrecorded(s.pending[id], d) && '\0' !in s.pending[id].content
    ensures var (s1, did) := Apply(s, id, true, d);
            var (s2, undid) := Rollback(s1, id, true, Flawless);
            && did == Err(IoFailure) && undid == Ok
            && s2.files == s.files && Actions(s2.history, id) == [DidRollback]
  {
    var full := AppliedStore(s, id);
    var s1 := full.(history := s.history);
    RollbackAfterFailure(s, id, d);
    FailedApplyLeaves(s, id, d);
    assert Apply(s, id, true, d).0 == s1;
    RolledBackAfterApply(s, id);
    RollbackIgnoresHistory(full, s.history, id);
    RollbackIgnoresHistory(s1, s.history, id);
    ActionsAppend(s.history, Entry(id, s.pending[id].target, DidRollback), id);
    hide Inv, Actions, ApplyRefusal, RollbackRefusal, Apply, Rollback, Readable, ProposedBytes, ApplyFailed;
    assert RolledBackStore(s1, id).history == s.history + [Entry(id, s.pending[id].target, DidRollback)];
    assert [] + [DidRollback] == [DidRollback];
  }

  /** Three failing steps are such faults for every patch. */
  lemma StubbornDisk(p: Patch)
    ensures LeavesUnrecorded(p, Disk({AppendHistory, RestoreTarget, UnlinkRecord}, None))
  {
  }
}
