/** The life of patches over whole runs of propose, apply, rollback and outside edits,
    with faults injected into every call. */
module PatchRuns {
  import opened Options
  import opened Newlines
  import opened PatchStore

  // ---- the invariant ----

  /** What the history says about one patch, oldest first. */
  function Actions(history: seq<Entry>, id: Id): seq<Action> {
    if history == [] then []
    else
      var last := history[|history| - 1];
      var before := Actions(history[..|history| - 1], id);
      if last.patchId == id then before + [last.action] else before
  }

  function LifeOf(status: Status): seq<Action> {
    match status
    case Pending => []
    case Applied => [DidApply]
    case RolledBack => [DidApply, DidRollback]
  }

  predicate Sound(p: Patch, id: Id) {
    p.patchId == id && ContentIntact(p) && p.original != p.proposed
  }

  ghost predicate PendingSound(s: Store, id: Id)
    requires id in s.pending
  {
    var p := s.pending[id];
    Sound(p, id) && p.status == Pending && Actions(s.history, id) == []
  }

  ghost predicate AppliedSound(s: Store, id: Id)
    requires id in s.applied
  {
    var p := s.applied[id];
    && Sound(p, id) && p.status != Pending && p.backup == Some(id)
    && id in s.backups && Sha256(s.backups[id]) == p.original
    && Actions(s.history, id) == LifeOf(p.status)
  }

  ghost predicate Inv(s: Store) {
    && s.pending.Keys !! s.applied.Keys
    && s.backups.Keys == s.applied.Keys
    && (forall id :: id in s.pending ==> PendingSound(s, id))
    && (forall id :: id in s.applied ==> AppliedSound(s, id))
    && (forall id :: id !in s.pending && id !in s.applied ==> Actions(s.history, id) == [])
  }

  // ---- runs ----

  datatype Event =
    | DoPropose(id: Id, target: Path, content: string, d: Disk)
    | DoApply(id: Id, confirmed: bool, d: Disk)
    | DoRollback(id: Id, confirmed: bool, d: Disk)
    | Edit(path: Path, after: Option<Bytes>)  // anyone else writing or deleting a file

  function Next(s: Store, e: Event): Store {
    match e
    case DoPropose(id, target, content, d) => Propose(s, id, target, content, d).0
    case DoApply(id, confirmed, d) => Apply(s, id, confirmed, d).0
    case DoRollback(id, confirmed, d) => Rollback(s, id, confirmed, d).0
    case Edit(path, None) => s.(files := s.files - {path})
    case Edit(path, Some(raw)) => s.(files := s.files[path := raw])
  }

  /** Patch identifiers are never reused, and the exception handlers' own writes succeed. */
  predicate Admissible(s: Store, e: Event) {
    match e
    case DoPropose(id, _, _, _) => id !in s.pending && id !in s.applied
    case DoApply(_, _, d) => d.RecoveryHolds()
    case DoRollback(_, _, d) => d.RecoveryHolds()
    case Edit(_, _) => true
  }

  function Run(s: Store, events: seq<Event>): Store
    decreases |events|
  {
    if events == [] then s else Run(Next(s, events[0]), events[1..])
  }

  predicate AdmissibleRun(s: Store, events: seq<Event>)
    decreases |events|
  {
    events != [] ==> Admissible(s, events[0]) && AdmissibleRun(Next(s, events[0]), events[1..])
  }

  /** Before anything was proposed the invariant holds, whatever the files are. */
  lemma NewStoreInv(files: map<Path, Bytes>)
    ensures Inv(Store(files, map[], map[], map[], []))
  {
  }

  lemma ActionsAppend(history: seq<Entry>, entry: Entry, id: Id)
    ensures Actions(history + [entry], id) ==
            Actions(history, id) + (if entry.patchId == id then [entry.action] else [])
  {
    assert (history + [entry])[..|history|] == history;
  }

  /** Every patch that is proposed passes its own stored-hash check later on. */
  lemma DraftIsSound(s: Store, id: Id, target: Path, content: string)
    requires Refuse(s, target, content).None?
    ensures Sound(Drafted(s, id, target, content), id)
  {
    var newline := Detect(Decode(s.files[target]));
    NormalizeAbsorbs(content, newline, newline);
  }

  lemma ProposeKeepsInv(s: Store, id: Id, target: Path, content: string, d: Disk)
    requires Inv(s) && id !in s.pending && id !in s.applied
    ensures Inv(Propose(s, id, target, content, d).0)
  {
    var t := Propose(s, id, target, content, d).0;
    if t != s {
      DraftIsSound(s, id, target, content);
      forall other | other in t.pending ensures PendingSound(t, other) {
        if other != id { assert PendingSound(s, other); }
      }
      forall other | other in t.applied ensures AppliedSound(t, other) { assert AppliedSound(s, other); }
    }
  }

  lemma SoundIgnoresStatus(p: Patch, id: Id, status: Status, backup: Option<Id>)
    ensures Sound(p.(status := status, backup := backup), id) <==> Sound(p, id)
  {
  }

  lemma AppliedRecordSound(s: Store, id: Id, other: Id)
    requires id in s.pending && PendingSound(s, id) && id !in s.applied
    requires s.pending[id].target in s.files
    requires Sha256(s.files[s.pending[id].target]) == s.pending[id].original
    requires other == id || (other in s.applied && AppliedSound(s, other))
    requires Actions(AppliedStore(s, id).history, other) ==
             Actions(s.history, other) + (if other == id then [DidApply] else [])
    ensures AppliedSound(AppliedStore(s, id), other)
  {
    hide Actions, Sound;
    SoundIgnoresStatus(s.pending[id], id, Applied, Some(id));
  }

  lemma AppliedStoreInv(s: Store, id: Id)
    requires Inv(s) && id in s.pending && s.pending[id].target in s.files
    requires Sha256(s.files[s.pending[id].target]) == s.pending[id].original
    ensures Inv(AppliedStore(s, id))
  {
    hide Actions, Sound;
    var t := AppliedStore(s, id);
    assert PendingSound(s, id);
    forall other ensures Actions(t.history, other) ==
        Actions(s.history, other) + (if other == id then [DidApply] else []) {
      ActionsAppend(s.history, Entry(id, s.pending[id].target, DidApply), other);
    }
    forall other | other in t.pending ensures PendingSound(t, other) { assert PendingSound(s, other); }
    hide AppliedSound;
    forall other | other in t.applied ensures AppliedSound(t, other) { AppliedRecordSound(s, id, other); }
  }

  lemma ApplyKeepsInv(s: Store, id: Id, confirmed: bool, d: Disk)
    requires Inv(s) && d.RecoveryHolds()
    ensures Inv(Apply(s, id, confirmed, d).0)
  {
    var (t, result) := Apply(s, id, confirmed, d);
    ApplyIsAtomic(s, id, confirmed, d);
    if result.Ok? { AppliedStoreInv(s, id); }
  }

  lemma RolledBackStoreInv(s: Store, id: Id)
    requires Inv(s) && id in s.applied && s.applied[id].status == Applied
    ensures s.applied[id].backup == Some(id) && id in s.backups
    ensures Inv(RolledBackStore(s, id))
  {
    assert AppliedSound(s, id);
    var p := s.applied[id];
    var t := RolledBackStore(s, id);
    assert t.applied.Keys == s.applied.Keys;
    assert t.pending == s.pending && t.backups == s.backups;
    forall other ensures Actions(t.history, other) ==
        Actions(s.history, other) + (if other == id then [DidRollback] else []) {
      ActionsAppend(s.history, Entry(id, p.target, DidRollback), other);
    }
    forall other | other in t.pending ensures PendingSound(t, other) { assert PendingSound(s, other); }
    forall other | other in t.applied ensures AppliedSound(t, other) {
      RolledBackRecordSound(s, id, other);
    }
  }

  lemma RolledBackRecordSound(s: Store, id: Id, other: Id)
    requires id in s.applied && s.applied[id].status == Applied && AppliedSound(s, id)
    requires other in s.applied && AppliedSound(s, other)
    requires Actions(RolledBackStore(s, id).history, other) ==
             Actions(s.history, other) + (if other == id then [DidRollback] else [])
    ensures AppliedSound(RolledBackStore(s, id), other)
  {
  }

  lemma RollbackKeepsInv(s: Store, id: Id, confirmed: bool, d: Disk)
    requires Inv(s) && d.RecoveryHolds()
    ensures Inv(Rollback(s, id, confirmed, d).0)
  {
    var (t, result) := Rollback(s, id, confirmed, d);
    RollbackIsAtomic(s, id, confirmed, d);
    if result.Ok? { RolledBackStoreInv(s, id); }
  }

  lemma EditKeepsInv(s: Store, path: Path, after: Option<Bytes>)
    requires Inv(s)
    ensures Inv(Next(s, Edit(path, after)))
  {
    var t := Next(s, Edit(path, after));
    forall other | other in t.pending ensures PendingSound(t, other) { assert PendingSound(s, other); }
    forall other | other in t.applied ensures AppliedSound(t, other) { assert AppliedSound(s, other); }
  }

  lemma NextKeepsInv(s: Store, e: Event)
    requires Inv(s) && Admissible(s, e)
    ensures Inv(Next(s, e))
  {
    match e
    case DoPropose(id, target, content, d) => ProposeKeepsInv(s, id, target, content, d);
    case DoApply(id, confirmed, d) => ApplyKeepsInv(s, id, confirmed, d);
    case DoRollback(id, confirmed, d) => RollbackKeepsInv(s, id, confirmed, d);
    case Edit(path, after) => EditKeepsInv(s, path, after);
  }

  lemma {:induction false} RunKeepsInv(s: Store, events: seq<Event>)
    requires Inv(s) && AdmissibleRun(s, events)
    ensures Inv(Run(s, events))
    decreases |events|
  {
    if events != [] {
      NextKeepsInv(s, events[0]);
      RunKeepsInv(Next(s, events[0]), events[1..]);
    }
  }

  // ---- lifecycle ----

  /** In every reachable store the history of each patch is a prefix of apply, rollback. */
  lemma HistoryIsALife(s: Store, events: seq<Event>, id: Id)
    requires Inv(s) && AdmissibleRun(s, events)
    ensures Actions(Run(s, events).history, id) <= [DidApply, DidRollback]
  {
    RunKeepsInv(s, events);
    var t := Run(s, events);
    if id in t.pending { assert PendingSound(t, id); }
    if id in t.applied { assert AppliedSound(t, id); }
  }

  function Rank(s: Store, id: Id): nat {
    if id in s.applied then (if s.applied[id].status == RolledBack then 3 else 2)
    else if id in s.pending then 1 else 0
  }

  lemma NextMovesForward(s: Store, e: Event, id: Id)
    requires Inv(s) && Admissible(s, e)
    ensures Rank(s, id) <= Rank(Next(s, e), id)
    ensures Rank(s, id) == 3 ==> id in Next(s, e).applied && Next(s, e).applied[id] == s.applied[id]
  {
    hide Actions, ContentIntact, Readable;
    match e
    case DoPropose(_, _, _, _) =>
    case DoApply(other, confirmed, d) =>
      var (t, result) := Apply(s, other, confirmed, d);
      ApplyIsAtomic(s, other, confirmed, d);
      if result.Ok? { assert other !in s.applied; }
    case DoRollback(other, confirmed, d) =>
      var (t, result) := Rollback(s, other, confirmed, d);
      RollbackIsAtomic(s, other, confirmed, d);
      if result.Ok? { assert s.applied[other].status == Applied; }
    case Edit(_, _) =>
  }

  lemma {:induction false} RolledBackIsTerminal(s: Store, events: seq<Event>, id: Id)
    requires Inv(s) && AdmissibleRun(s, events)
    requires id in s.applied && s.applied[id].status == RolledBack
    ensures var t := Run(s, events);
            && id in t.applied && t.applied[id] == s.applied[id]
            && Actions(t.history, id) == [DidApply, DidRollback]
            && (forall confirmed, d :: Apply(t, id, confirmed, d).1.Err? && Rollback(t, id, confirmed, d).1.Err?)
    decreases |events|
  {
    if events == [] {
      assert AppliedSound(s, id);
    } else {
      NextKeepsInv(s, events[0]);
      NextMovesForward(s, events[0], id);
      RolledBackIsTerminal(Next(s, events[0]), events[1..], id);
    }
  }

  /** A call changes a file only if it held exactly the bytes the patch was made from (or
      made), so a target edited in between is never overwritten. */
  lemma EditedTargetIsKept(s: Store, id: Id, confirmed: bool, d: Disk, path: Path)
    requires Inv(s) && d.RecoveryHolds() && path in s.files
    ensures var t := Apply(s, id, confirmed, d).0;
            path in t.files && (t.files[path] != s.files[path] ==>
              && confirmed && id in s.pending && s.pending[id].target == path
              && s.pending[id].original == Sha256(s.files[path])
              && s.pending[id].proposed == Sha256(t.files[path])
              && id in t.backups && t.backups[id] == s.files[path])
    ensures var t := Rollback(s, id, confirmed, d).0;
            path in t.files && (t.files[path] != s.files[path] ==>
              && confirmed && id in s.applied && s.applied[id].target == path
              && s.applied[id].proposed == Sha256(s.files[path])
              && s.applied[id].original == Sha256(t.files[path]))
  {
    ApplyIsAtomic(s, id, confirmed, d);
    RollbackIsAtomic(s, id, confirmed, d);
  }

  // ---- inverses ----

  lemma ProposedIsReadable(p: Patch)
    ensures Readable(ProposedBytes(p)) <==> '\0' !in p.content
  {
    NormalizeKeepsChar(p.content, p.newline, '\0');
  }

  /** A fresh proposal can be applied, and applying it puts the proposed bytes in place. */
  lemma ProposalApplies(s: Store, id: Id, target: Path, content: string)
    requires Inv(s) && id !in s.pending && id !in s.applied
    requires Refuse(s, target, content).None?
    ensures var (s1, made) := Propose(s, id, target, content, Flawless);
            var (s2, done) := Apply(s1, id, true, Flawless);
            && made == Ok && done == Ok
            && s2.files == s.files[target := Encode(content, HasBom(s.files[target]), Detect(Decode(s.files[target])))]
  {
    DraftIsSound(s, id, target, content);
    var newline := Detect(Decode(s.files[target]));
    NormalizeAbsorbs(content, newline, newline);
  }

  /** Apply followed by rollback restores every file, unless the proposed content holds a
      NUL: such a patch is applied, but its target is then refused as binary and the patch
      can never be rolled back. */
  lemma RollbackInvertsApply(s: Store, id: Id)
    requires Inv(s) && ApplyRefusal(s, id, true).None?
    ensures var p := s.pending[id];
            var (s1, did) := Apply(s, id, true, Flawless);
            var (s2, undid) := Rollback(s1, id, true, Flawless);
            && did == Ok
            && (undid == Ok <==> '\0' !in p.content)
            && (undid == Ok ==> s2.files == s.files && s2.history == s.history + RoundTrip(id, p.target))
            && (undid != Ok ==> undid == Err(UnsafeTarget) && s2 == s1)
  {
    var p := s.pending[id];
    ProposedIsReadable(p);
    var s1 := AppliedStore(s, id);
    assert Apply(s, id, true, Flawless) == (s1, Ok);
    RefusalAfterApply(s, id);
    if '\0' !in p.content {
      assert Rollback(s1, id, true, Flawless) == (RolledBackStore(s1, id), Ok);
      RolledBackAfterApply(s, id);
    }
  }

  function RoundTrip(id: Id, target: Path): seq<Entry> {
    [Entry(id, target, DidApply), Entry(id, target, DidRollback)]
  }

  lemma RefusalAfterApply(s: Store, id: Id)
    requires Inv(s) && ApplyRefusal(s, id, true).None?
    ensures RollbackRefusal(AppliedStore(s, id), id, true) ==
            if Readable(ProposedBytes(s.pending[id])) then None else Some(UnsafeTarget)
  {
    assert PendingSound(s, id);
    var s1 := AppliedStore(s, id);
    var p := s1.applied[id];
    assert ProposedBytes(p) == ProposedBytes(s.pending[id]);
    assert s1.files[p.target] == ProposedBytes(p);
  }

  lemma RolledBackAfterApply(s: Store, id: Id)
    requires id in s.pending && s.pending[id].target in s.files
    ensures var s2 := RolledBackStore(AppliedStore(s, id), id);
            s2.files == s.files && s2.history == s.history + RoundTrip(id, s.pending[id].target)
  {
  }

  /** The last check of `propose_patch` never fires: texts that differ in bytes differ in lines. */
  lemma NoVisibleChangeIsDead(s: Store, target: Path, content: string)
    ensures Refuse(s, target, content) != Some(NoVisibleChange)
  {
    if Writable(s, target) {
      var raw := s.files[target];
      if HasBom(raw) { assert raw.chars == [BOM] + Decode(raw); }
      assert [] + Normalize(content, Detect(Decode(raw))) == Normalize(content, Detect(Decode(raw)));
    }
  }

  /** A run from a store without patches in which a NUL is proposed and applied, and the rollback
      is refused; the file keeps the proposed bytes. */
  lemma NulPatchIsStuck(id: Id, path: Path)
    ensures var start := Store(map[path := Text("a")], map[], map[], map[], []);
            var end := Run(start, [DoPropose(id, path, "\0", Flawless), DoApply(id, true, Flawless)]);
            && Inv(start) && id in end.applied && end.applied[id].status == Applied
            && path in end.files && end.files[path] == Text("\0")
            && Rollback(end, id, true, Flawless) == (end, Err(UnsafeTarget))
  {
    var start := Store(map[path := Text("a")], map[], map[], map[], []);
    var proposed := Next(start, DoPropose(id, path, "\0", Flawless));
    var end := Next(proposed, DoApply(id, true, Flawless));
    RunOfTwo(start, DoPropose(id, path, "\0", Flawless), DoApply(id, true, Flawless));
    NewStoreInv(start.files);
    NulIsItself(LF);
    ProposalApplies(start, id, path, "\0");
    ProposeKeepsInv(start, id, path, "\0", Flawless);
    RollbackInvertsApply(proposed, id);
  }

  lemma RunOfTwo(s: Store, first: Event, second: Event)
    ensures Run(s, [first, second]) == Next(Next(s, first), second)
  {
    assert [first, second][1..] == [second] && [second][1..] == [];
    assert Run(s, [first, second]) == Run(Next(s, first), [second]);
  }

  lemma NulIsItself(newline: Newline)
    ensures Normalize("\0", newline) == "\0"
  {
  }
}
