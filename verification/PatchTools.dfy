/** The patch tools as they run: one write at a time, with hand-written undo. */
module PatchTools {
  import opened Options
  import opened Newlines
  import opened PatchStore

  class PatchEngine {
    var files: map<Path, Bytes>
    var pending: map<Id, Patch>
    var applied: map<Id, Patch>
    var backups: map<Id, Bytes>
    var history: seq<Entry>

    constructor (files: map<Path, Bytes>)
      ensures Stores() == Store(files, map[], map[], map[], [])
    {
      this.files := files;
      pending, applied, backups, history := map[], map[], map[], [];
    }

    ghost function Stores(): Store
      reads this
    {
      Store(files, pending, applied, backups, history)
    }

    method ProposePatch(id: Id, target: Path, content: string, d: Disk) returns (result: Result)
      modifies this
      ensures (Stores(), result) == Propose(old(Stores()), id, target, content, d)
    {
      if content == "" { return Err(EmptyContent); }
      if |content| > MAX_PATCH_CHARS { return Err(ContentTooLong); }
      if target !in files || !Readable(files[target]) { return Err(UnsafeTarget); }
      var raw := files[target];
      var bom := HasBom(raw);
      var text := Decode(raw);
      if |text| > MAX_PATCH_CHARS { return Err(TargetTooLong); }
      var newline := Detect(text);
      var proposedText := Normalize(content, newline);
      var proposed := Encode(content, bom, newline);
      if raw == proposed { return Err(NoChange); }
      if text == proposedText { return Err(NoVisibleChange); }
      if !d.Holds(ReadStores) || !d.Holds(WriteRecord) { return Err(IoFailure); }
      pending := pending[id := Patch(id, target, Pending, Sha256(raw), Sha256(proposed),
                                     bom, newline, proposedText, None)];
      return Ok;
    }

    method ApplyPatch(id: Id, confirmed: bool, d: Disk) returns (result: Result)
      modifies this
      ensures (Stores(), result) == Apply(old(Stores()), id, confirmed, d)
    {
      if !confirmed { return Err(NotConfirmed); }
      if id !in pending {
        if id in applied { return Err(NotPending); }
        return Err(UnknownPatch);
      }
      var p := pending[id];
      if p.patchId != id { return Err(IdMismatch); }
      if p.status != Pending { return Err(NotPending); }
      if p.target !in files || !Readable(files[p.target]) { return Err(UnsafeTarget); }
      var raw := files[p.target];
      if Sha256(raw) != p.original { return Err(StaleTarget); }
      if !ContentIntact(p) { return Err(ContentCorrupt); }
      if id in backups { return Err(BackupExists); }
      if !d.Holds(ReadStores) || !d.Holds(WriteBackup) { return Err(IoFailure); }
      var done := ApplyWrites(p, id, raw, d);
      if done { return Ok; }
      ApplyHandler(p, id, raw, d);
      return Err(IoFailure);
    }

    /** The assertions name the state that a crash before each write would leave. */
    method ApplyWrites(p: Patch, id: Id, raw: Bytes, d: Disk) returns (done: bool)
      requires id in pending && pending[id] == p && p.target in files && files[p.target] == raw
      requires ContentIntact(p) && d.Holds(WriteBackup)
      modifies this
      ensures Stores() == ApplyForward(old(Stores()), id, d)
      ensures done <==> d.ApplyRuns(ProposedBytes(p))
    {
      hide ProposedBytes;
      var proposed := ProposedBytes(p);
      done := false;
      ghost var start := Stores();
      backups := backups[id := raw];
      assert Stores() == ApplyForward(start, id, StopAt(d, WriteTarget));
      if !d.Holds(WriteTarget) { return; }
      files := files[p.target := d.Lands(proposed)];
      assert Stores() == ApplyForward(start, id, StopAt(d, ReadBack));
      if !d.Holds(ReadBack) || Sha256(files[p.target]) != p.proposed { return; }
      assert Stores() == ApplyForward(start, id, StopAt(d, WriteRecord));
      if !d.Holds(WriteRecord) { return; }
      applied := applied[id := p.(status := Applied, backup := Some(id))];
      assert Stores() == ApplyForward(start, id, StopAt(d, UnlinkPending));
      if !d.Holds(UnlinkPending) { return; }
      pending := pending - {id};
      assert Stores() == ApplyForward(start, id, StopAt(d, AppendHistory));
      if !d.Holds(AppendHistory) { return; }
      history := history + [Entry(id, p.target, DidApply)];
      done := true;
    }

    method ApplyHandler(p: Patch, id: Id, raw: Bytes, d: Disk)
      modifies this
      ensures Stores() == ApplyUndo(old(Stores()), p, id, raw, d)
    {
      if d.Holds(RestoreTarget) { files := files[p.target := raw]; }
      if id in applied {
        if !d.Holds(UnlinkRecord) { return; }
        applied := applied - {id};
      } else {
        assert applied - {id} == applied;
      }
      if id !in pending {
        if !d.Holds(RestoreRecord) { return; }
        pending := pending[id := p];
      }
      if id in backups {
        if !d.Holds(UnlinkBackup) { return; }
        backups := backups - {id};
      } else {
        assert backups - {id} == backups;
      }
    }

    method RollbackPatch(id: Id, confirmed: bool, d: Disk) returns (result: Result)
      modifies this
      ensures (Stores(), result) == Rollback(old(Stores()), id, confirmed, d)
    {
      if !confirmed { return Err(NotConfirmed); }
      if id in pending { return Err(NotApplied); }
      if id !in applied { return Err(UnknownPatch); }
      var p := applied[id];
      if p.patchId != id { return Err(IdMismatch); }
      if p.status != Applied { return Err(NotApplied); }
      if p.target !in files || !Readable(files[p.target]) { return Err(UnsafeTarget); }
      if Sha256(files[p.target]) != p.proposed { return Err(StaleTarget); }
      if p.backup.None? || p.backup.value !in backups { return Err(BackupMissing); }
      var raw := backups[p.backup.value];
      if Sha256(raw) != p.original { return Err(BackupCorrupt); }
      if !ContentIntact(p) { return Err(ContentCorrupt); }
      if !d.Holds(ReadStores) { return Err(IoFailure); }
      var done := RollbackWrites(p, id, raw, d);
      if done { return Ok; }
      RollbackHandler(p, id, d);
      return Err(IoFailure);
    }

    method RollbackWrites(p: Patch, id: Id, raw: Bytes, d: Disk) returns (done: bool)
      requires id in applied && applied[id] == p && p.target in files
      requires p.backup.Some? && p.backup.value in backups && backups[p.backup.value] == raw
      requires Sha256(raw) == p.original
      modifies this
      ensures Stores() == RollbackForward(old(Stores()), id, d)
      ensures done <==> d.RollbackRuns(raw)
    {
      done := false;
      ghost var start := Stores();
      if !d.Holds(WriteTarget) { return; }
      files := files[p.target := d.Lands(raw)];
      assert Stores() == RollbackForward(start, id, StopAt(d, ReadBack));
      if !d.Holds(ReadBack) || Sha256(files[p.target]) != p.original { return; }
      assert Stores() == RollbackForward(start, id, StopAt(d, WriteRecord));
      if !d.Holds(WriteRecord) { return; }
      applied := applied[id := p.(status := RolledBack)];
      assert Stores() == RollbackForward(start, id, StopAt(d, AppendHistory));
      if !d.Holds(AppendHistory) { return; }
      history := history + [Entry(id, p.target, DidRollback)];
      done := true;
    }

    method RollbackHandler(p: Patch, id: Id, d: Disk)
      modifies this
      ensures Stores() == RollbackUndo(old(Stores()), p, id, d)
    {
      if !d.Holds(RestoreTarget) { return; }
      files := files[p.target := ProposedBytes(p)];
      if !d.Holds(RestoreRecord) { return; }
      applied := applied[id := p];
    }
  }
}
