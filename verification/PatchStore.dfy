/** The four stores behind the patch tools as one value, and what each operation makes of
    them when any input/output step may fail (tools/patch_tools.py).

    File contents are taken through their UTF-8 decoding, which is a bijection on valid
    files: a byte order mark is a leading U+FEFF character.  SHA-256 is a constructor, that
    is, an injective function. */
module PatchStore {
  import opened Options
  import opened Newlines

  type Path = string
  type Id = string

  const BOM: char := '\U{FEFF}'
  const MAX_PATCH_CHARS := 200_000

  datatype Bytes = Text(chars: string) | Binary(octets: seq<nat>)

  datatype Digest = Sha256(of: Bytes)

  datatype Status = Pending | Applied | RolledBack

  datatype Patch = Patch(
    patchId: Id, target: Path, status: Status, original: Digest, proposed: Digest,
    bom: bool, newline: Newline, content: string, backup: Option<Id>)

  datatype Action = DidApply | DidRollback

  datatype Entry = Entry(patchId: Id, target: Path, action: Action)

  datatype Store = Store(
    files: map<Path, Bytes>, pending: map<Id, Patch>, applied: map<Id, Patch>,
    backups: map<Id, Bytes>, history: seq<Entry>)

  datatype Error =
    | EmptyContent | ContentTooLong | UnsafeTarget | TargetTooLong | NoChange | NoVisibleChange
    | NotConfirmed | UnknownPatch | NotPending | NotApplied | IdMismatch
    | StaleTarget | ContentCorrupt | BackupExists | BackupMissing | BackupCorrupt
    | IoFailure

  datatype Result = Ok | Err(error: Error)

  // ---- disk behaviour during one call ----

  /** Every input/output step of `apply_patch` and `rollback_patch`; each happens at most
      once in a call, so the set of steps that raise decides the whole call. */
  datatype Step =
    | ReadStores                                                   // before any write
    | WriteBackup | WriteTarget | ReadBack | WriteRecord | UnlinkPending | AppendHistory
    | RestoreTarget | UnlinkRecord | RestoreRecord | UnlinkBackup  // in the handlers

  /** `landed` is what the write of the target really left, if not the bytes asked for. */
  datatype Disk = Disk(faults: set<Step>, landed: Option<Bytes>) {
    predicate Holds(step: Step) { step !in faults }

    function Lands(asked: Bytes): Bytes { if landed.Some? then landed.value else asked }

    predicate RecoveryHolds() {
      && Holds(RestoreTarget) && Holds(UnlinkRecord)
      && Holds(RestoreRecord) && Holds(UnlinkBackup)
    }

    /** The target was replaced and reading it back gave the bytes asked for. */
    predicate TargetVerified(asked: Bytes) {
      Holds(WriteTarget) && Holds(ReadBack) && Lands(asked) == asked
    }

    predicate ApplyRuns(asked: Bytes) {
      && Holds(WriteBackup) && TargetVerified(asked)
      && Holds(WriteRecord) && Holds(UnlinkPending) && Holds(AppendHistory)
    }

    predicate RollbackRuns(asked: Bytes) {
      TargetVerified(asked) && Holds(WriteRecord) && Holds(AppendHistory)
    }
  }

  const Flawless := Disk({}, None)

  // ---- text and bytes ----

  predicate Readable(raw: Bytes) { raw.Text? && '\0' !in raw.chars }

  /** `validate_writable_text_file`, for the paths that the path rules let through. */
  predicate Writable(s: Store, path: Path) { path in s.files && Readable(s.files[path]) }

  function HasBom(raw: Bytes): bool
    requires raw.Text?
  {
    raw.chars != "" && raw.chars[0] == BOM
  }

  function Decode(raw: Bytes): string
    requires raw.Text?
  {
    if HasBom(raw) then raw.chars[1..] else raw.chars
  }

  function Encode(text: string, bom: bool, newline: Newline): Bytes {
    Text((if bom then [BOM] else []) + Normalize(text, newline))
  }

  function ProposedBytes(p: Patch): Bytes { Encode(p.content, p.bom, p.newline) }

  predicate ContentIntact(p: Patch) { Sha256(ProposedBytes(p)) == p.proposed }

  // ---- propose ----

  function Refuse(s: Store, target: Path, content: string): Option<Error> {
    if content == "" then Some(EmptyContent)
    else if |content| > MAX_PATCH_CHARS then Some(ContentTooLong)
    else if !Writable(s, target) then Some(UnsafeTarget)
    else if |Decode(s.files[target])| > MAX_PATCH_CHARS then Some(TargetTooLong)
    else
      var raw := s.files[target];
      var newline := Detect(Decode(raw));
      if raw == Encode(content, HasBom(raw), newline) then Some(NoChange)
      else if Decode(raw) == Normalize(content, newline) then Some(NoVisibleChange)
      else None
  }

  function Drafted(s: Store, id: Id, target: Path, content: string): Patch
    requires Writable(s, target)
  {
    var raw := s.files[target];
    var newline := Detect(Decode(raw));
    var text := Normalize(content, newline);
    Patch(id, target, Pending, Sha256(raw), Sha256(Encode(content, HasBom(raw), newline)),
          HasBom(raw), newline, text, None)
  }

  function Propose(s: Store, id: Id, target: Path, content: string, d: Disk): (Store, Result) {
    match Refuse(s, target, content)
    case Some(error) => (s, Err(error))
    case None =>
      if !d.Holds(ReadStores) || !d.Holds(WriteRecord) then (s, Err(IoFailure))
      else (s.(pending := s.pending[id := Drafted(s, id, target, content)]), Ok)
  }

  // ---- apply ----

  function ApplyRefusal(s: Store, id: Id, confirmed: bool): Option<Error> {
    if !confirmed then Some(NotConfirmed)
    else if id !in s.pending then Some(if id in s.applied then NotPending else UnknownPatch)
    else
      var p := s.pending[id];
      if p.patchId != id then Some(IdMismatch)
      else if p.status != Pending then Some(NotPending)
      else if !Writable(s, p.target) then Some(UnsafeTarget)
      else if Sha256(s.files[p.target]) != p.original then Some(StaleTarget)
      else if !ContentIntact(p) then Some(ContentCorrupt)
      else if id in s.backups then Some(BackupExists)
      else None
  }

  function AppliedStore(s: Store, id: Id): Store
    requires id in s.pending && s.pending[id].target in s.files
  {
    var p := s.pending[id];
    Store(s.files[p.target := ProposedBytes(p)],
          s.pending - {id},
          s.applied[id := p.(status := Applied, backup := Some(id))],
          s.backups[id := s.files[p.target]],
          s.history + [Entry(id, p.target, DidApply)])
  }

  /** The forward writes, up to the first step that raises. */
  function ApplyForward(s: Store, id: Id, d: Disk): Store
    requires id in s.pending && s.pending[id].target in s.files
  {
    var p := s.pending[id];
    var asked := ProposedBytes(p);
    var saved := s.(backups := s.backups[id := s.files[p.target]]);
    if !d.Holds(WriteTarget) then saved
    else
      var written := saved.(files := s.files[p.target := d.Lands(asked)]);
      if !d.TargetVerified(asked) || !d.Holds(WriteRecord) then written
      else
        var recorded := written.(applied := s.applied[id := p.(status := Applied, backup := Some(id))]);
        if !d.Holds(UnlinkPending) then recorded
        else
          var moved := recorded.(pending := s.pending - {id});
          if !d.Holds(AppendHistory) then moved
          else moved.(history := s.history + [Entry(id, p.target, DidApply)])
  }

  /** The handler: restore the target; then, whether or not that worked, drop the record,
      bring the pending file back and drop the backup, stopping at the first that raises. */
  function ApplyUndo(now: Store, p: Patch, id: Id, raw: Bytes, d: Disk): Store {
    var target := if d.Holds(RestoreTarget) then now.(files := now.files[p.target := raw]) else now;
    if id in target.applied && !d.Holds(UnlinkRecord) then target
    else
      var dropped := target.(applied := target.applied - {id});
      if id !in dropped.pending && !d.Holds(RestoreRecord) then dropped
      else
        var back := if id in dropped.pending then dropped else dropped.(pending := dropped.pending[id := p]);
        if id in back.backups && !d.Holds(UnlinkBackup) then back
        else back.(backups := back.backups - {id})
  }

  function ApplyFailed(s: Store, id: Id, d: Disk): Store
    requires id in s.pending && s.pending[id].target in s.files
  {
    if !d.Holds(WriteBackup) then s
    else ApplyUndo(ApplyForward(s, id, d), s.pending[id], id, s.files[s.pending[id].target], d)
  }

  function Apply(s: Store, id: Id, confirmed: bool, d: Disk): (Store, Result) {
    match ApplyRefusal(s, id, confirmed)
    case Some(error) => (s, Err(error))
    case None =>
      if !d.Holds(ReadStores) then (s, Err(IoFailure))
      else if d.ApplyRuns(ProposedBytes(s.pending[id])) then (AppliedStore(s, id), Ok)
      else (ApplyFailed(s, id, d), Err(IoFailure))
  }

  // ---- rollback ----

  function RollbackRefusal(s: Store, id: Id, confirmed: bool): Option<Error> {
    if !confirmed then Some(NotConfirmed)
    else if id in s.pending then Some(NotApplied)
    else if id !in s.applied then Some(UnknownPatch)
    else
      var p := s.applied[id];
      if p.patchId != id then Some(IdMismatch)
      else if p.status != Applied then Some(NotApplied)
      else if !Writable(s, p.target) then Some(UnsafeTarget)
      else if Sha256(s.files[p.target]) != p.proposed then Some(StaleTarget)
      else if p.backup.None? || p.backup.value !in s.backups then Some(BackupMissing)
      else if Sha256(s.backups[p.backup.value]) != p.original then Some(BackupCorrupt)
      else if !ContentIntact(p) then Some(ContentCorrupt)
      else None
  }

  function RolledBackStore(s: Store, id: Id): Store
    requires id in s.applied && s.applied[id].backup.Some? && s.applied[id].backup.value in s.backups
  {
    var p := s.applied[id];
    s.(files := s.files[p.target := s.backups[p.backup.value]],
       applied := s.applied[id := p.(status := RolledBack)],
       history := s.history + [Entry(id, p.target, DidRollback)])
  }

  function RollbackForward(s: Store, id: Id, d: Disk): Store
    requires id in s.applied && s.applied[id].target in s.files
    requires s.applied[id].backup.Some? && s.applied[id].backup.value in s.backups
  {
    var p := s.applied[id];
    var asked := s.backups[p.backup.value];
    if !d.Holds(WriteTarget) then s
    else
      var written := s.(files := s.files[p.target := d.Lands(asked)]);
      if !d.TargetVerified(asked) || !d.Holds(WriteRecord) then written
      else
        var recorded := written.(applied := s.applied[id := p.(status := RolledBack)]);
        if !d.Holds(AppendHistory) then recorded
        else recorded.(history := s.history + [Entry(id, p.target, DidRollback)])
  }

  /** The handler: nothing is restored past the first step that raises. */
  function RollbackUndo(now: Store, p: Patch, id: Id, d: Disk): Store {
    if !d.Holds(RestoreTarget) then now
    else
      var target := now.(files := now.files[p.target := ProposedBytes(p)]);
      if !d.Holds(RestoreRecord) then target
      else target.(applied := target.applied[id := p])
  }

  function RollbackFailed(s: Store, id: Id, d: Disk): Store
    requires id in s.applied && s.applied[id].target in s.files
    requires s.applied[id].backup.Some? && s.applied[id].backup.value in s.backups
  {
    RollbackUndo(RollbackForward(s, id, d), s.applied[id], id, d)
  }

  function Rollback(s: Store, id: Id, confirmed: bool, d: Disk): (Store, Result) {
    match RollbackRefusal(s, id, confirmed)
    case Some(error) => (s, Err(error))
    case None =>
      if !d.Holds(ReadStores) then (s, Err(IoFailure))
      else if d.RollbackRuns(s.backups[s.applied[id].backup.value]) then (RolledBackStore(s, id), Ok)
      else (RollbackFailed(s, id, d), Err(IoFailure))
  }

  // ---- failure atomicity ----

  /** The handler of `apply_patch` has put everything back. */
  predicate ApplyUndone(s: Store, id: Id, d: Disk)
    requires id in s.pending && s.pending[id].target in s.files
  {
    var p := s.pending[id];
    var asked := ProposedBytes(p);
    var recorded := d.TargetVerified(asked) && d.Holds(WriteRecord);
    || !d.Holds(WriteBackup)
    || ( && (!d.Holds(WriteTarget) || d.Holds(RestoreTarget) || d.Lands(asked) == s.files[p.target])
         && (recorded ==> d.Holds(UnlinkRecord))
         && (recorded && d.Holds(UnlinkPending) ==> d.Holds(RestoreRecord))
         && d.Holds(UnlinkBackup))
  }

  lemma ApplyForwardStores(s: Store, id: Id, d: Disk)
    requires id in s.pending && s.pending[id].target in s.files && id !in s.applied
    requires !d.ApplyRuns(ProposedBytes(s.pending[id])) && d.Holds(WriteBackup)
    ensures var p := s.pending[id];
            var asked := ProposedBytes(p);
            var recorded := d.TargetVerified(asked) && d.Holds(WriteRecord);
            var t := ApplyForward(s, id, d);
            && t.files == (if d.Holds(WriteTarget) then s.files[p.target := d.Lands(asked)] else s.files)
            && (id in t.applied <==> recorded) && t.applied - {id} == s.applied
            && (id !in t.pending <==> recorded && d.Holds(UnlinkPending)) && t.pending[id := p] == s.pending
            && t.backups == s.backups[id := s.files[p.target]] && t.history == s.history
  {
    var p := s.pending[id];
    assert s.applied - {id} == s.applied;
    assert s.pending[id := p] == s.pending;
  }

  lemma ApplyFailedUndone(s: Store, id: Id, d: Disk)
    requires id in s.pending && s.pending[id].target in s.files && id !in s.applied && id !in s.backups
    requires !d.ApplyRuns(ProposedBytes(s.pending[id]))
    ensures ApplyFailed(s, id, d) == s <==> ApplyUndone(s, id, d)
  {
    if d.Holds(WriteBackup) {
      ApplyForwardStores(s, id, d);
      var p := s.pending[id];
      var asked := ProposedBytes(p);
      var t := ApplyForward(s, id, d);
      var u := ApplyFailed(s, id, d);
      assert u.history == s.history;
      assert t.files[p.target := s.files[p.target]] == s.files;
      assert t.backups - {id} == s.backups;
      assert id !in t.applied ==> t.applied == s.applied;
      assert id in t.pending ==> t.pending == s.pending;
      if d.Holds(WriteTarget) && !d.Holds(RestoreTarget) {
        assert u.files[p.target] == d.Lands(asked);
      }
    }
  }

  /** An ok result is the full new store; an error leaves the store as it was exactly when
      no handler step that has something to undo raises. */
  lemma ApplyIsAtomic(s: Store, id: Id, confirmed: bool, d: Disk)
    requires id in s.pending && id in s.applied ==> id in s.backups
    ensures var (after, result) := Apply(s, id, confirmed, d);
            && (result.Ok? ==> ApplyRefusal(s, id, confirmed).None? && after == AppliedStore(s, id))
            && (result.Err? ==> (after == s <==>
                  || ApplyRefusal(s, id, confirmed).Some?
                  || !d.Holds(ReadStores) || ApplyUndone(s, id, d)))
            && (result.Err? && d.RecoveryHolds() ==> after == s)
  {
    var (after, result) := Apply(s, id, confirmed, d);
    if result.Err? && ApplyRefusal(s, id, confirmed).None? && d.Holds(ReadStores) {
      ApplyFailedUndone(s, id, d);
    }
  }

  predicate RollbackUndone(s: Store, id: Id, d: Disk)
    requires id in s.applied && s.applied[id].target in s.files
    requires s.applied[id].backup.Some? && s.applied[id].backup.value in s.backups
  {
    var p := s.applied[id];
    var asked := s.backups[p.backup.value];
    var recorded := d.TargetVerified(asked) && d.Holds(WriteRecord);
    && (!d.Holds(WriteTarget) || d.Holds(RestoreTarget) || d.Lands(asked) == s.files[p.target])
    && (recorded ==> d.Holds(RestoreTarget) && d.Holds(RestoreRecord))
  }

  lemma RollbackIsAtomic(s: Store, id: Id, confirmed: bool, d: Disk)
    ensures var (after, result) := Rollback(s, id, confirmed, d);
            && (result.Ok? ==> RollbackRefusal(s, id, confirmed).None? && after == RolledBackStore(s, id))
            && (result.Err? ==> (after == s <==>
                  || RollbackRefusal(s, id, confirmed).Some?
                  || !d.Holds(ReadStores) || RollbackUndone(s, id, d)))
            && (result.Err? && d.RecoveryHolds() ==> after == s)
  {
    var (after, result) := Rollback(s, id, confirmed, d);
    if result.Err? && RollbackRefusal(s, id, confirmed).None? && d.Holds(ReadStores) {
      var p := s.applied[id];
      assert s.files[p.target] == ProposedBytes(p);
      assert s.files[p.target := s.files[p.target]] == s.files;
      assert s.applied[id := p] == s.applied;
      if after.applied == s.applied { assert after.applied[id] == p; }
      if after.files == s.files { assert after.files[p.target] == s.files[p.target]; }
    }
  }

  lemma FailedRestore(s: Store, id: Id)
    requires id in s.pending && s.pending[id].target in s.files && id !in s.applied && id !in s.backups
    ensures var after := ApplyFailed(s, id, Disk({AppendHistory, RestoreTarget}, None));
            && after.files == s.files[s.pending[id].target := ProposedBytes(s.pending[id])]
            && after.pending == s.pending && after.applied == s.applied && after.backups == s.backups
            && after.history == s.history
  {
    var d := Disk({AppendHistory, RestoreTarget}, None);
    ApplyForwardStores(s, id, d);
    hide ProposedBytes, ApplyForward;
    assert ApplyForward(s, id, d).backups - {id} == s.backups;
  }

  /** What is lost when the handler cannot write the target: the file holds the proposed
      bytes, the patch is still pending, and no copy of the original is left. */
  lemma FailedRestoreLosesOriginal(s: Store, id: Id)
    requires id in s.pending && id in s.applied ==> id in s.backups
    requires ApplyRefusal(s, id, true).None?
    requires s.files[s.pending[id].target] != ProposedBytes(s.pending[id])
    ensures var (after, result) := Apply(s, id, true, Disk({AppendHistory, RestoreTarget}, None));
            && result == Err(IoFailure)
            && after.files[s.pending[id].target] == ProposedBytes(s.pending[id])
            && after.pending == s.pending && after.applied == s.applied && after.history == s.history
            && after.backups == s.backups && id !in after.backups
            && ApplyRefusal(after, id, true).Some?
  {
    hide ContentIntact, Readable, ProposedBytes, Encode;
    FailedRestore(s, id);
    var (after, _) := Apply(s, id, true, Disk({AppendHistory, RestoreTarget}, None));
    assert after.pending[id] == s.pending[id];
    hide Apply, ApplyFailed;
  }

  // ---- what a crash leaves behind ----

  /** The target holds the original bytes, or those that were written while a backup of the
      original is there; no other file has changed; the patch can still be found; and it is
      recorded as applied only over the proposed bytes. */
  ghost predicate ApplySafePoint(before: Store, now: Store, id: Id, d: Disk)
    requires id in before.pending && before.pending[id].target in before.files
  {
    var p := before.pending[id];
    && now.files.Keys == before.files.Keys
    && (forall path :: path in before.files && path != p.target ==> now.files[path] == before.files[path])
    && (now.files[p.target] == before.files[p.target] || now.files[p.target] == d.Lands(ProposedBytes(p)))
    && (now.files[p.target] != before.files[p.target] ==>
         id in now.backups && now.backups[id] == before.files[p.target])
    && (id in now.pending || id in now.applied)
    && (now.applied != before.applied || now.history != before.history ==>
         id in now.applied && now.files[p.target] == ProposedBytes(p))
  }

  /** The same disk, with the writes stopped before one step. */
  function StopAt(d: Disk, step: Step): Disk { d.(faults := d.faults + {step}) }

  /** Every state between two writes of an apply is safe: the forward writes stop at the first
      step that raises, so that every such state is the one of some disk. */
  lemma ApplyStatesAreSafe(s: Store, id: Id, d: Disk)
    requires ApplyRefusal(s, id, true).None? && d.Holds(WriteBackup)
    ensures ApplySafePoint(s, ApplyForward(s, id, d), id, d)
  {
    hide ProposedBytes, Readable;
  }

  /** The same for a rollback, whose backup stays in place throughout. */
  ghost predicate RollbackSafePoint(before: Store, now: Store, id: Id, d: Disk)
    requires id in before.applied && before.applied[id].target in before.files
    requires before.applied[id].backup.Some? && before.applied[id].backup.value in before.backups
  {
    var p := before.applied[id];
    var original := before.backups[p.backup.value];
    && now.backups == before.backups && now.pending == before.pending
    && (now.files == before.files || now.files == before.files[p.target := d.Lands(original)])
    && now.applied.Keys == before.applied.Keys && now.applied[id].(status := p.status) == p
    && (now.applied != before.applied || now.history != before.history ==> now.files[p.target] == original)
  }

  lemma RollbackStatesAreSafe(s: Store, id: Id, d: Disk)
    requires RollbackRefusal(s, id, true).None?
    ensures RollbackSafePoint(s, RollbackForward(s, id, d), id, d)
  {
    hide ProposedBytes, Readable;
  }

  /** The handler of a failed apply removes the backup of a target it could not restore. */
  predicate LosesOriginal(s: Store, id: Id, d: Disk)
    requires id in s.pending && s.pending[id].target in s.files
  {
    var p := s.pending[id];
    var asked := ProposedBytes(p);
    var recorded := d.TargetVerified(asked) && d.Holds(WriteRecord);
    && d.Holds(WriteBackup) && d.Holds(WriteTarget) && d.Lands(asked) != s.files[p.target]
    && !d.Holds(RestoreTarget)
    && (recorded ==> d.Holds(UnlinkRecord))
    && (recorded && d.Holds(UnlinkPending) ==> d.Holds(RestoreRecord))
    && d.Holds(UnlinkBackup)
  }

  /** After a failed apply the original bytes are in the target or in its backup, exactly if the
      handler did not remove the backup of a target it could not restore. */
  lemma OriginalSurvives(s: Store, id: Id, d: Disk)
    requires (id in s.applied ==> id in s.backups) && ApplyRefusal(s, id, true).None?
    requires !d.ApplyRuns(ProposedBytes(s.pending[id]))
    ensures var u, p := ApplyFailed(s, id, d), s.pending[id];
            || (p.target in u.files && u.files[p.target] == s.files[p.target])
            || (id in u.backups && u.backups[id] == s.files[p.target])
            || LosesOriginal(s, id, d)
    ensures LosesOriginal(s, id, d) ==>
              var u, p := ApplyFailed(s, id, d), s.pending[id];
              id !in u.backups && p.target in u.files && u.files[p.target] != s.files[p.target]
  {
    hide Readable, ContentIntact;
    if d.Holds(WriteBackup) { ApplyForwardStores(s, id, d); }
    hide ProposedBytes, ApplyForward;
  }
}
