/** What every call of the patch tools does, case by case: when it succeeds, what it then makes of
    the stores, and what each error means (tools/patch_tools.py:82-149, 196-269, 461-666). */
module PatchOutcomes {
  import opened Options
  import opened Strings
  import opened Newlines
  import opened PatchStore
  import opened PatchRuns

  // ---- line endings ----

  /** The index of an LF, CR or CRLF that begins at i. */
  predicate IsCrlf(text: string, i: int) { 0 <= i < |text| - 1 && text[i] == '\r' && text[i + 1] == '\n' }

  predicate IsLoneLf(text: string, i: int) { 0 <= i < |text| && text[i] == '\n' && !IsCrlf(text, i - 1) }

  predicate IsLoneCr(text: string, i: int) { 0 <= i < |text| && text[i] == '\r' && !IsCrlf(text, i) }

  /** How many of the first n positions begin an ending of the given kind. */
  function Endings(text: string, newline: Newline, n: nat): nat {
    if n == 0 then 0
    else
      var i := n - 1;
      Endings(text, newline, n - 1) +
      if match newline case CRLF => IsCrlf(text, i) case LF => IsLoneLf(text, i) case CR => IsLoneCr(text, i)
      then 1 else 0
  }

  /** The endings of the text from position k on. */
  lemma {:induction false} EndingsFrom(text: string, newline: Newline, k: nat, n: nat)
    requires k + n <= |text| && !IsCrlf(text, k - 1)
    ensures Endings(text, newline, k + n) == Endings(text, newline, k) + Endings(text[k..], newline, n)
    decreases n
  {
    if n > 0 {
      EndingsFrom(text, newline, k, n - 1);
      var i := n - 1;
      assert text[k..][i] == text[k + i];
      assert IsCrlf(text[k..], i) <==> IsCrlf(text, k + i);
      assert IsCrlf(text[k..], i - 1) <==> IsCrlf(text, k + i - 1);
    }
  }

  lemma EndingsOfOne(text: string, newline: Newline)
    requires text != "" && !IsCrlf(text, 0)
    ensures Endings(text, newline, 1) ==
            if (newline == LF && text[0] == '\n') || (newline == CR && text[0] == '\r') then 1 else 0
  {
    assert Endings(text, newline, 0) == 0;
  }

  lemma EndingsOfTwo(text: string, newline: Newline)
    requires IsCrlf(text, 0)
    ensures Endings(text, newline, 2) == if newline == CRLF then 1 else 0
  {
    assert Endings(text, newline, 0) == 0;
    assert Endings(text, newline, 1) == if newline == CRLF then 1 else 0;
  }

  lemma FirstTwo(text: string)
    requires |text| >= 2
    ensures text[..2] == "\r\n" <==> IsCrlf(text, 0)
  {
    if IsCrlf(text, 0) { assert text[..2] == [text[0], text[1]]; }
  }

  /** The counts that detection takes are those of the three endings. */
  lemma {:induction false} CountsAreEndings(text: string)
    ensures Count(text, "\r\n") == Endings(text, CRLF, |text|)
    ensures Count(Replace(text, "\r\n", ""), "\n") == Endings(text, LF, |text|)
    ensures Count(Replace(text, "\r\n", ""), "\r") == Endings(text, CR, |text|)
    decreases |text|
  {
    if |text| >= 2 && text[..2] == "\r\n" {
      FirstTwo(text);
      CountsAreEndings(text[2..]);
      forall newline ensures Endings(text, newline, |text|) ==
          Endings(text, newline, 2) + Endings(text[2..], newline, |text| - 2) {
        EndingsFrom(text, newline, 2, |text| - 2);
      }
      EndingsOfTwo(text, CRLF);
      EndingsOfTwo(text, LF);
      EndingsOfTwo(text, CR);
      assert Replace(text, "\r\n", "") == "" + Replace(text[2..], "\r\n", "") == Replace(text[2..], "\r\n", "");
    } else if text != "" {
      if |text| >= 2 { FirstTwo(text); }
      assert !IsCrlf(text, 0);
      CountsAreEndings(text[1..]);
      forall newline ensures Endings(text, newline, |text|) ==
          Endings(text, newline, 1) + Endings(text[1..], newline, |text| - 1) {
        EndingsFrom(text, newline, 1, |text| - 1);
      }
      EndingsOfOne(text, CRLF);
      EndingsOfOne(text, LF);
      EndingsOfOne(text, CR);
      FirstStays(text);
    }
  }

  lemma FirstStays(text: string)
    requires text != "" && !IsCrlf(text, 0)
    ensures Count(text, "\r\n") == Count(text[1..], "\r\n")
    ensures forall c: char ::
              Count(Replace(text, "\r\n", ""), [c]) ==
              (if text[0] == c then 1 else 0) + Count(Replace(text[1..], "\r\n", ""), [c])
  {
    if |text| >= 2 { FirstTwo(text); }
    var rest := Replace(text[1..], "\r\n", "");
    if |text| == 1 {
      assert text[1..] == "" && Replace("", "\r\n", "") == "" && text == [text[0]] + "";
    }
    assert Replace(text, "\r\n", "") == [text[0]] + rest;
    forall c: char ensures Count([text[0]] + rest, [c]) == (if text[0] == c then 1 else 0) + Count(rest, [c]) {
      var v := [text[0]] + rest;
      assert v[..1] == [text[0]] && v[1..] == rest;
    }
  }

  /** The line ending of a text is the most frequent one; of equally frequent ones CRLF comes first,
      then LF, then CR; a text without any gets LF. */
  lemma MostFrequentIsDetected(text: string)
    ensures var (crlf, lf, cr) :=
              (Endings(text, CRLF, |text|), Endings(text, LF, |text|), Endings(text, CR, |text|));
            && (Detect(text) == CRLF <==> crlf > 0 && crlf >= lf && crlf >= cr)
            && (Detect(text) == CR <==> cr > crlf && cr > lf)
  {
    CountsAreEndings(text);
    hide Endings;
  }

  // ---- propose ----

  /** The text of a file without its byte order mark. */
  function TextOf(chars: string): string { if chars != "" && chars[0] == '\U{FEFF}' then chars[1..] else chars }

  /** The bytes a file would get for some content: its own mark and kind of line ending. */
  function NewChars(chars: string, content: string): string {
    (if chars != "" && chars[0] == '\U{FEFF}' then "\U{FEFF}" else "") + Normalize(content, Detect(TextOf(chars)))
  }

  /** A file that can be written: it exists, is text, and holds no NUL. */
  predicate IsText(s: Store, target: Path) {
    target in s.files && s.files[target].Text? && forall c :: c in s.files[target].chars ==> c != '\0'
  }

  predicate Proposable(s: Store, target: Path, content: string) {
    && 1 <= |content| <= 200_000 && IsText(s, target) && |TextOf(s.files[target].chars)| <= 200_000
    && NewChars(s.files[target].chars, content) != s.files[target].chars
  }

  /** A proposal succeeds exactly for these arguments, and then adds one pending patch with all it
      needs to be applied and rolled back, and changes nothing else. */
  lemma ProposeOutcome(s: Store, id: Id, target: Path, content: string, d: Disk)
    ensures var (after, result) := Propose(s, id, target, content, d);
            if Proposable(s, target, content) && d.Holds(ReadStores) && d.Holds(WriteRecord)
            then
              var chars := s.files[target].chars;
              var newline := Detect(TextOf(chars));
              && result == Ok
              && after == s.(pending := s.pending[id :=
                   Patch(id, target, Pending, Sha256(s.files[target]), Sha256(Text(NewChars(chars, content))),
                         chars != "" && chars[0] == '\U{FEFF}', newline, Normalize(content, newline), None)])
            else after == s && result.Err?
  {
    NoVisibleChangeIsDead(s, target, content);
    if IsText(s, target) { NewBytes(s.files[target], content); }
    hide Normalize, Detect;
  }

  lemma NewBytes(raw: Bytes, content: string)
    requires raw.Text?
    ensures Encode(content, HasBom(raw), Detect(Decode(raw))) == Text(NewChars(raw.chars, content))
    ensures Decode(raw) == TextOf(raw.chars)
  {
    hide Normalize, Detect;
  }

  /** What each refusal of a proposal says; earlier checks have then passed. */
  lemma ProposeErrors(s: Store, id: Id, target: Path, content: string, d: Disk)
    ensures var result := Propose(s, id, target, content, d).1;
            && (result == Err(EmptyContent) <==> content == "")
            && (result == Err(ContentTooLong) <==> |content| > 200_000)
            && (result == Err(UnsafeTarget) <==> 1 <= |content| <= 200_000 && !IsText(s, target))
            && (result == Err(TargetTooLong) <==>
                 1 <= |content| <= 200_000 && IsText(s, target) && |TextOf(s.files[target].chars)| > 200_000)
            && (result == Err(NoChange) <==>
                 && 1 <= |content| <= 200_000 && IsText(s, target) && |TextOf(s.files[target].chars)| <= 200_000
                 && NewChars(s.files[target].chars, content) == s.files[target].chars)
            && (result == Err(IoFailure) <==>
                 Proposable(s, target, content) && !(d.Holds(ReadStores) && d.Holds(WriteRecord)))
  {
    NoVisibleChangeIsDead(s, target, content);
    if IsText(s, target) { NewBytes(s.files[target], content); }
    hide Normalize, Detect;
  }

  // ---- apply ----

  /** The bytes that the metadata of a patch asks for. */
  function AskedChars(p: Patch): string { (if p.bom then "\U{FEFF}" else "") + Normalize(p.content, p.newline) }

  /** What an apply needs before it writes anything. */
  predicate Appliable(s: Store, id: Id) {
    && id in s.pending && s.pending[id].patchId == id && s.pending[id].status == Pending
    && IsText(s, s.pending[id].target) && s.pending[id].original == Sha256(s.files[s.pending[id].target])
    && s.pending[id].proposed == Sha256(Text(AskedChars(s.pending[id]))) && id !in s.backups
  }

  lemma RefusalIsAppliable(s: Store, id: Id, confirmed: bool)
    ensures ApplyRefusal(s, id, confirmed).None? <==> confirmed && Appliable(s, id)
    ensures Appliable(s, id) ==> ProposedBytes(s.pending[id]) == Text(AskedChars(s.pending[id]))
  {
    hide Normalize;
  }

  /** Without a fault an apply succeeds exactly if it is confirmed and the patch is appliable. */
  lemma ApplyOutcome(s: Store, id: Id, confirmed: bool)
    ensures var (after, result) := Apply(s, id, confirmed, Flawless);
            if confirmed && Appliable(s, id)
            then
              var p := s.pending[id];
              && result == Ok
              && after.files == s.files[p.target := Text(AskedChars(p))]
              && after.pending == s.pending - {id}
              && after.applied == s.applied[id := p.(status := Applied, backup := Some(id))]
              && after.backups == s.backups[id := s.files[p.target]]
              && after.history == s.history + [Entry(id, p.target, DidApply)]
            else after == s && result.Err?
  {
    RefusalIsAppliable(s, id, confirmed);
    hide ApplyRefusal, Appliable, AskedChars, ProposedBytes;
  }

  /** Whatever fails, an apply that is not confirmed, or whose patch is not appliable, or that cannot
      read the stores, does nothing. */
  lemma ApplyNeedsConfirmation(s: Store, id: Id, confirmed: bool, d: Disk)
    ensures Apply(s, id, false, d) == (s, Err(NotConfirmed))
    ensures !(confirmed && Appliable(s, id) && d.Holds(ReadStores)) ==>
              Apply(s, id, confirmed, d).0 == s && Apply(s, id, confirmed, d).1.Err?
  {
    RefusalIsAppliable(s, id, confirmed);
    hide Appliable, ApplyFailed, AppliedStore;
  }

  /** The steps of the handlers, and those that only an apply has. */
  const HANDLER_STEPS := {RestoreTarget, UnlinkRecord, RestoreRecord, UnlinkBackup}

  const APPLY_STEPS := {WriteBackup, UnlinkPending}

  lemma OwnSteps(d: Disk)
    ensures d.faults <= HANDLER_STEPS <==>
      && d.Holds(ReadStores) && d.Holds(WriteBackup) && d.Holds(WriteTarget) && d.Holds(ReadBack)
      && d.Holds(WriteRecord) && d.Holds(UnlinkPending) && d.Holds(AppendHistory)
    ensures d.faults <= APPLY_STEPS + HANDLER_STEPS <==>
      && d.Holds(ReadStores) && d.Holds(WriteTarget) && d.Holds(ReadBack) && d.Holds(WriteRecord)
      && d.Holds(AppendHistory)
  {
    forall step | step in d.faults
      ensures step in APPLY_STEPS + HANDLER_STEPS || !d.Holds(ReadStores) || !d.Holds(WriteTarget)
              || !d.Holds(ReadBack) || !d.Holds(WriteRecord) || !d.Holds(AppendHistory)
    {
      match step {
        case ReadStores => case WriteBackup => case WriteTarget => case ReadBack => case WriteRecord =>
        case UnlinkPending => case AppendHistory =>
        case RestoreTarget => case UnlinkRecord => case RestoreRecord => case UnlinkBackup =>
      }
    }
  }

  /** With any disk: it succeeds exactly if moreover none of its own steps raises and the target then
      holds what was asked for. */
  lemma ApplySucceeds(s: Store, id: Id, confirmed: bool, d: Disk)
    ensures Apply(s, id, confirmed, d).1 == Ok <==>
      && confirmed && Appliable(s, id) && (d.landed.Some? ==> d.landed.value == Text(AskedChars(s.pending[id])))
      && d.faults <= HANDLER_STEPS
  {
    OwnSteps(d);
    RefusalIsAppliable(s, id, confirmed);
    hide ApplyRefusal, Appliable, AskedChars, ProposedBytes, ApplyFailed, AppliedStore;
  }

  /** When each refusal of an apply is given, in the order of the checks. */
  lemma ApplyErrors(s: Store, id: Id, confirmed: bool, d: Disk)
    ensures var result := Apply(s, id, confirmed, d).1;
            && (result == Err(NotConfirmed) <==> !confirmed)
            && (confirmed && id !in s.pending ==> result == Err(if id in s.applied then NotPending else UnknownPatch))
            && (confirmed && id in s.pending ==> result.Err? ==> GivenForPending(s, id, s.pending[id], result.error, d))
  {
    RefusalIsAppliable(s, id, confirmed);
    hide ApplyFailed, AppliedStore, Normalize;
  }

  /** The error of an apply of a pending patch. */
  predicate GivenForPending(s: Store, id: Id, p: Patch, e: Error, d: Disk) {
    if p.patchId != id then e == IdMismatch
    else if p.status != Pending then e == NotPending
    else if !IsText(s, p.target) then e == UnsafeTarget
    else if p.original != Sha256(s.files[p.target]) then e == StaleTarget
    else if p.proposed != Sha256(Text(AskedChars(p))) then e == ContentCorrupt
    else if id in s.backups then e == BackupExists
    else e == IoFailure && (d.faults != {} || d.landed.Some?)
  }

  // ---- rollback ----

  /** What a rollback needs before it writes anything. */
  predicate Revertible(s: Store, id: Id) {
    && id !in s.pending && id in s.applied && s.applied[id].patchId == id && s.applied[id].status == Applied
    && IsText(s, s.applied[id].target) && s.applied[id].proposed == Sha256(s.files[s.applied[id].target])
    && s.applied[id].backup.Some? && s.applied[id].backup.value in s.backups
    && s.applied[id].original == Sha256(s.backups[s.applied[id].backup.value])
    && s.applied[id].proposed == Sha256(Text(AskedChars(s.applied[id])))
  }

  lemma RefusalIsRevertible(s: Store, id: Id, confirmed: bool)
    ensures RollbackRefusal(s, id, confirmed).None? <==> confirmed && Revertible(s, id)
  {
    hide Normalize;
  }

  /** Without a fault a rollback succeeds exactly if it is confirmed and the patch is revertible. */
  lemma RollbackOutcome(s: Store, id: Id, confirmed: bool)
    ensures var (after, result) := Rollback(s, id, confirmed, Flawless);
            if confirmed && Revertible(s, id)
            then
              var p := s.applied[id];
              && result == Ok
              && after.files == s.files[p.target := s.backups[p.backup.value]]
              && after.pending == s.pending && after.backups == s.backups
              && after.applied == s.applied[id := p.(status := RolledBack)]
              && after.history == s.history + [Entry(id, p.target, DidRollback)]
            else after == s && result.Err?
  {
    RefusalIsRevertible(s, id, confirmed);
    hide RollbackRefusal, Revertible, ProposedBytes;
  }

  /** Whatever fails, a rollback that is not confirmed, or whose patch is not revertible, or that
      cannot read the stores, does nothing. */
  lemma RollbackNeedsConfirmation(s: Store, id: Id, confirmed: bool, d: Disk)
    ensures Rollback(s, id, false, d) == (s, Err(NotConfirmed))
    ensures !(confirmed && Revertible(s, id) && d.Holds(ReadStores)) ==>
              Rollback(s, id, confirmed, d).0 == s && Rollback(s, id, confirmed, d).1.Err?
  {
    RefusalIsRevertible(s, id, confirmed);
    hide Revertible, RollbackFailed, RolledBackStore;
  }

  /** With any disk: it succeeds exactly if moreover none of its own steps raises and the target then
      holds the backup. */
  lemma RollbackSucceeds(s: Store, id: Id, confirmed: bool, d: Disk)
    ensures Rollback(s, id, confirmed, d).1 == Ok <==>
      && confirmed && Revertible(s, id)
      && (d.landed.Some? ==> d.landed.value == s.backups[s.applied[id].backup.value])
      && d.faults <= APPLY_STEPS + HANDLER_STEPS
  {
    OwnSteps(d);
    RefusalIsRevertible(s, id, confirmed);
    assert Revertible(s, id) ==> id in s.applied && s.applied[id].backup.Some?;
    hide RollbackRefusal, AskedChars, ProposedBytes, RollbackFailed, RolledBackStore;
  }

  /** When each refusal of a rollback is given, in the order of the checks. */
  lemma RollbackErrors(s: Store, id: Id, confirmed: bool, d: Disk)
    ensures var result := Rollback(s, id, confirmed, d).1;
            && (result == Err(NotConfirmed) <==> !confirmed)
            && (confirmed && id in s.pending ==> result == Err(NotApplied))
            && (confirmed && id !in s.pending && id !in s.applied ==> result == Err(UnknownPatch))
            && (confirmed && id !in s.pending && id in s.applied ==> result.Err? ==>
                 GivenForApplied(s, id, s.applied[id], result.error, d))
  {
    RefusalIsRevertible(s, id, confirmed);
    hide RollbackFailed, RolledBackStore, Normalize;
  }

  /** The error of a rollback of a patch on record. */
  predicate GivenForApplied(s: Store, id: Id, p: Patch, e: Error, d: Disk) {
    if p.patchId != id then e == IdMismatch
    else if p.status != Applied then e == NotApplied
    else if !IsText(s, p.target) then e == UnsafeTarget
    else if p.proposed != Sha256(s.files[p.target]) then e == StaleTarget
    else if p.backup.None? || p.backup.value !in s.backups then e == BackupMissing
    else if p.original != Sha256(s.backups[p.backup.value]) then e == BackupCorrupt
    else if p.proposed != Sha256(Text(AskedChars(p))) then e == ContentCorrupt
    else e == IoFailure && (d.faults != {} || d.landed.Some?)
  }
}
