/** The two-level lock around generated state: a thread lock per process and a file lock shared
    by all processes (core/state_integrity.py).  One scope. */
module StateLock {
  import opened Options

  // ---- the protocol ----

  /** A lock object and what it holds. */
  datatype Lock = Lock(process: nat, thread: bool, stream: bool, file: bool) {
    predicate Holds() { thread && stream && file }
    predicate HoldsNothing() { !thread && !stream && !file }
  }

  /** Who holds the file lock: the stream of a lock object, or one that could be neither unlocked
      nor closed and that no object knows any more. */
  datatype Holder = Owner(lock: nat) | Orphan

  datatype World = World(locks: map<nat, Lock>, mutexes: map<nat, nat>, file: Option<Holder>)

  /** One step of a lock object; unlocking and closing may fail. */
  datatype Event =
    | TakeThread(l: nat) | OpenStream(l: nat) | Grant(l: nat)
    | Unlock(l: nat, ok: bool) | CloseStream(l: nat, ok: bool) | FreeThread(l: nat)

  predicate Enabled(w: World, e: Event) {
    && e.l in w.locks
    && var lock := w.locks[e.l];
    match e
    case TakeThread(_) => lock.HoldsNothing() && lock.process !in w.mutexes
    case OpenStream(_) => lock.thread && !lock.stream && !lock.file
    case Grant(_) => lock.thread && lock.stream && !lock.file && w.file == None
    case Unlock(_, _) => lock.Holds()
    case CloseStream(_, _) => lock.stream && !lock.file
    case FreeThread(_) => lock.thread && !lock.stream && !lock.file
  }

  function Next(w: World, e: Event): World
    requires Enabled(w, e)
  {
    var lock := w.locks[e.l];
    match e
    case TakeThread(l) => World(w.locks[l := lock.(thread := true)], w.mutexes[lock.process := l], w.file)
    case OpenStream(l) => w.(locks := w.locks[l := lock.(stream := true)])
    case Grant(l) => w.(locks := w.locks[l := lock.(file := true)], file := Some(Owner(l)))
    case Unlock(l, ok) => w.(locks := w.locks[l := lock.(file := false)], file := if ok then None else w.file)
    case CloseStream(l, ok) =>
      w.(locks := w.locks[l := lock.(stream := false)],
         file := if w.file != Some(Owner(l)) then w.file else if ok then None else Some(Orphan))
    case FreeThread(l) => World(w.locks[l := lock.(thread := false)], w.mutexes - {lock.process}, w.file)
  }

  ghost predicate Inv(w: World) {
    && (forall l :: l in w.locks ==>
         && (w.locks[l].thread <==> w.locks[l].process in w.mutexes && w.mutexes[w.locks[l].process] == l)
         && (w.locks[l].stream ==> w.locks[l].thread)
         && (w.locks[l].file ==> w.locks[l].Holds() && w.file == Some(Owner(l))))
    && (w.file.Some? && w.file.value.Owner? ==> w.file.value.lock in w.locks && w.locks[w.file.value.lock].stream)
  }

  ghost predicate Initial(w: World) {
    (forall l :: l in w.locks ==> w.locks[l].HoldsNothing()) && w.mutexes == map[] && w.file == None
  }

  ghost predicate Reaches(w: World, events: seq<Event>, end: World)
    decreases |events|
  {
    if events == [] then w == end
    else Enabled(w, events[0]) && Reaches(Next(w, events[0]), events[1..], end)
  }

  lemma NextKeepsInv(w: World, e: Event)
    requires Inv(w) && Enabled(w, e)
    ensures Inv(Next(w, e))
  {
  }

  lemma {:induction false} RunKeepsInv(w: World, events: seq<Event>, end: World)
    requires Inv(w) && Reaches(w, events, end)
    ensures Inv(end)
    decreases |events|
  {
    if events != [] {
      NextKeepsInv(w, events[0]);
      RunKeepsInv(Next(w, events[0]), events[1..], end);
    }
  }

  lemma {:induction false} ReachesOneMore(w: World, events: seq<Event>, middle: World, e: Event)
    requires Reaches(w, events, middle) && Enabled(middle, e)
    ensures Reaches(w, events + [e], Next(middle, e))
    decreases |events|
  {
    hide Enabled, Next;
    if events == [] {
      assert (events + [e])[1..] == [];
      assert Reaches(Next(w, e), [], Next(middle, e));
    } else {
      ReachesOneMore(Next(w, events[0]), events[1..], middle, e);
      assert (events + [e])[1..] == events[1..] + [e];
    }
  }

  /** Over every interleaving of any number of lock objects in any number of processes, at most
      one holds the lock, and at most one of a process holds its thread lock. */
  lemma MutualExclusion(w: World, events: seq<Event>, end: World, k: nat, l: nat)
    requires Initial(w) && Reaches(w, events, end) && k in end.locks && l in end.locks && k != l
    ensures !(end.locks[k].Holds() && end.locks[l].Holds())
    ensures end.locks[k].process == end.locks[l].process ==> !(end.locks[k].thread && end.locks[l].thread)
  {
    RunKeepsInv(w, events, end);
  }

  /** The steps of one object do not change what another holds. */
  lemma OthersKeepMine(w: World, e: Event, l: nat)
    requires Enabled(w, e) && l in w.locks && e.l != l
    ensures l in Next(w, e).locks && Next(w, e).locks[l] == w.locks[l]
  {
  }

  // ---- what a sequence of steps undoes ----

  function Taken(w: World, l: nat): World
    requires Enabled(w, TakeThread(l))
  {
    Next(Next(w, TakeThread(l)), OpenStream(l))
  }

  /** An attempt that is given up leaves no trace, whether the stream was opened or not, and
      whether it could be closed or not. */
  lemma GivingUpLeavesNoTrace(w: World, l: nat, closed: bool)
    requires Inv(w) && Enabled(w, TakeThread(l))
    ensures Next(Next(w, TakeThread(l)), FreeThread(l)) == w
    ensures Next(Next(Taken(w, l), CloseStream(l, closed)), FreeThread(l)) == w
  {
    assert w.locks[l] == Lock(w.locks[l].process, false, false, false);
    var direct := Next(Next(w, TakeThread(l)), FreeThread(l));
    var opened_ := Next(Next(Taken(w, l), CloseStream(l, closed)), FreeThread(l));
    assert direct.locks == w.locks && direct.mutexes == w.mutexes;
    assert opened_.locks == w.locks && opened_.mutexes == w.mutexes;
  }

  /** Taking and releasing the lock leaves no trace exactly if the file was unlocked or its stream
      closed; otherwise nobody can take the lock any more. */
  lemma ReleaseUndoesAcquire(w: World, l: nat, unlocked: bool, closed: bool)
    requires Inv(w) && Enabled(w, TakeThread(l)) && w.file == None
    ensures var held := Next(Taken(w, l), Grant(l));
            var after := Next(Next(Next(held, Unlock(l, unlocked)), CloseStream(l, closed)), FreeThread(l));
            && held.locks[l].Holds()
            && (after == w <==> unlocked || closed)
            && (!unlocked && !closed ==> after.file == Some(Orphan) && forall k :: !Enabled(after, Grant(k)))
  {
    var held := Next(Taken(w, l), Grant(l));
    var after := Next(Next(Next(held, Unlock(l, unlocked)), CloseStream(l, closed)), FreeThread(l));
    assert w.locks[l] == Lock(w.locks[l].process, false, false, false);
    assert after.locks == w.locks && after.mutexes == w.mutexes;
  }

  // ---- the machine the lock objects run on ----

  ghost function Own(events: seq<Event>, l: nat): seq<Event> {
    if events == [] then []
    else
      var n := |events| - 1;
      Own(events[..n], l) + if events[n].l == l then [events[n]] else []
  }

  lemma OwnOneMore(events: seq<Event>, e: Event, l: nat)
    ensures Own(events + [e], l) == Own(events, l) + if e.l == l then [e] else []
  {
    assert (events + [e])[..|events|] == events;
  }

  /** None of these steps is one of object k. */
  ghost predicate Spare(events: seq<Event>, k: nat) { forall i :: 0 <= i < |events| ==> events[i].l != k }

  /** A step that is made if it is possible. */
  function Stepped(w: World, e: Event): World { if Enabled(w, e) then Next(w, e) else w }

  /** The world after the steps of others than object l, as far as they are possible. */
  function Interfered(w: World, l: nat, events: seq<Event>): World {
    if events == [] then w
    else
      var n := |events| - 1;
      var v := Interfered(w, l, events[..n]);
      if events[n].l == l then v else Stepped(v, events[n])
  }

  /** Thread locks and the file lock, and all steps made so far. */
  class Machine {
    var world: World
    ghost var start: World
    ghost var trace: seq<Event>

    ghost predicate Valid()
      reads this
    {
      Initial(start) && Reaches(start, trace, world)
    }

    /** What the machine knows of object k. */
    function Entry(k: nat): Option<Lock>
      reads this
    {
      if k in world.locks then Some(world.locks[k]) else None
    }

    method Do(e: Event)
      requires Valid() && Enabled(world, e)
      modifies this
      ensures Valid() && start == old(start)
      ensures world == Next(old(world), e) && trace == old(trace) + [e]
      ensures forall k :: k != e.l ==> Entry(k) == old(Entry(k))
    {
      ReachesOneMore(start, trace, world, e);
      world := Next(world, e);
      trace := trace + [e];
    }

    /** Whatever steps other objects make here, as far as they are possible. */
    method Interfere(l: nat, events: seq<Event>)
      requires Valid() && l in world.locks
      modifies this
      ensures Valid() && start == old(start)
      ensures l in world.locks && world.locks[l] == old(world.locks[l])
      ensures Own(trace, l) == old(Own(trace, l))
      ensures forall k: nat :: Spare(events, k) ==> Entry(k) == old(Entry(k))
      ensures world == Interfered(old(world), l, events)
    {
      hide Inv, Initial, Reaches, Own;
      for i := 0 to |events|
        invariant Valid() && start == old(start)
        invariant l in world.locks && world.locks[l] == old(world.locks[l])
        invariant Own(trace, l) == old(Own(trace, l))
        invariant forall k: nat :: Spare(events, k) ==> Entry(k) == old(Entry(k))
        invariant world == Interfered(old(world), l, events[..i])
      {
        assert events[..i + 1][..i] == events[..i];
        if events[i].l != l && Enabled(world, events[i]) {
          OthersKeepMine(world, events[i], l);
          OwnOneMore(trace, events[i], l);
          Do(events[i]);
        }
      }
      assert events[..|events|] == events;
    }
  }

  datatype Outcome = Acquired | TimedOut | Unavailable | OperationFailed

  /** Opening the lock file: fine, refused because it is a link, or a failed operation. */
  datatype Opening = Opens | Refused | Fails

  /** What happens around one call: the steps of others while it waits for the thread lock, after
      that, before each attempt on the file lock, and while it gives up; how opening goes; which
      attempts fail in other ways than being busy; and the clock readings of each busy attempt. */
  datatype Around = Around(
    waiting: seq<Event>, between: seq<Event>, before: nat -> seq<Event>, leaving: seq<Event>,
    opening: Opening, initialized: bool, broken: nat -> bool, checked: nat -> int, slept: nat -> int, closes: bool)
  {
    /** Object k does nothing meanwhile. */
    ghost predicate Spares(k: nat) {
      Spare(waiting, k) && Spare(between, k) && Spare(leaving, k) && forall n :: Spare(before(n), k)
    }
  }

  const PAUSE_MS := 25

  function Pause(deadline: int, now: int): nat {
    if deadline <= now then 0 else if deadline - now < PAUSE_MS then deadline - now else PAUSE_MS
  }

  /** A pause ends no later than the deadline, and is a full one unless the deadline is near. */
  lemma PauseEndsInTime(deadline: int, now: int)
    ensures Pause(deadline, now) <= 25 && (now <= deadline ==> now + Pause(deadline, now) <= deadline)
    ensures now + 25 <= deadline ==> Pause(deadline, now) == 25
    ensures now < deadline < now + 25 ==> now + Pause(deadline, now) == deadline
  {
  }

  /** The clock does not run backwards, and a sleep lasts at least as long as asked. */
  ghost predicate Ticks(x: Around, started: int, deadline: int) {
    forall n: nat ::
      && started <= x.checked(n) <= x.slept(n)
      && x.checked(n + 1) >= x.slept(n) + Pause(deadline, x.slept(n))
  }

  /** After some busy attempts: when the next may be made, and how many there can have been. */
  ghost predicate Paced(x: Around, started: int, timeoutMs: nat, tries: nat, reached: int) {
    && started <= reached <= x.checked(tries)
    && (reached >= started + timeoutMs || PAUSE_MS * tries <= reached - started)
    && (reached >= started + timeoutMs ==> tries <= timeoutMs / PAUSE_MS + 2)
  }

  lemma PaceBegins(x: Around, started: int, timeoutMs: nat)
    requires Ticks(x, started, started + timeoutMs)
    ensures Paced(x, started, timeoutMs, 0, started)
  {
    assert started <= x.checked(0) <= x.slept(0);
  }

  lemma PaceBounds(x: Around, started: int, timeoutMs: nat, tries: nat, reached: int)
    requires Paced(x, started, timeoutMs, tries, reached)
    ensures reached <= x.checked(tries) && tries <= timeoutMs / PAUSE_MS + 2
  {
  }

  lemma PaceGoesOn(x: Around, started: int, timeoutMs: nat, tries: nat, reached: int)
    requires Ticks(x, started, started + timeoutMs) && Paced(x, started, timeoutMs, tries, reached)
    requires x.checked(tries) < started + timeoutMs
    ensures var next := x.slept(tries) + Pause(started + timeoutMs, x.slept(tries));
            next > reached && Paced(x, started, timeoutMs, tries + 1, next)
  {
    assert started <= x.checked(tries) <= x.slept(tries);
    PaceBounds(x, started, timeoutMs, tries, reached);
  }

  /** The world in which attempt k on the file lock is made, from the one in which the file was
      opened. */
  function AtAttempt(w: World, l: nat, x: Around, k: nat): World {
    Interfered(if k == 0 then w else AtAttempt(w, l, x, k - 1), l, x.before(k))
  }

  /** The world after the first attempts, if all were busy. */
  function WorldAfter(w: World, l: nat, x: Around, tries: nat): World {
    if tries == 0 then w else AtAttempt(w, l, x, tries - 1)
  }

  /** The world in which the file was opened, from the one at the call. */
  function Opened(w: World, l: nat, x: Around): World {
    Stepped(Interfered(Stepped(Interfered(w, l, x.waiting), TakeThread(l)), l, x.between), OpenStream(l))
  }

  /** The steps of one object while it waits for the file lock. */
  ghost function AwaitSteps(x: Around, l: nat, r: Outcome): seq<Event> {
    if r == Acquired then [Grant(l)] else [CloseStream(l, x.closes), FreeThread(l)]
  }

  /** The steps of one call: none if the thread lock could not be had; taken and freed if the lock
      file could not be opened; otherwise opened, and then granted, or closed and freed. */
  ghost predicate AcquireSteps(x: Around, l: nat, r: Outcome, tries: nat, steps: seq<Event>) {
    if steps == [] then r == TimedOut && tries == 0
    else if x.opening != Opens then
      && tries == 0 && r == (if x.opening == Refused then Unavailable else OperationFailed)
      && steps == [TakeThread(l), FreeThread(l)]
    else
      && (if x.initialized then tries > 0 && r != Unavailable else tries == 0 && r == OperationFailed)
      && steps == [TakeThread(l), OpenStream(l)] + AwaitSteps(x, l, r)
  }

  /** The same under the thread lock. */
  ghost function FileSteps(x: Around, l: nat, r: Outcome): seq<Event> {
    if x.opening != Opens then [FreeThread(l)] else [OpenStream(l)] + AwaitSteps(x, l, r)
  }

  predicate FileOutcome(x: Around, r: Outcome, tries: nat) {
    if x.opening != Opens then tries == 0 && r == (if x.opening == Refused then Unavailable else OperationFailed)
    else if x.initialized then tries > 0 && r != Unavailable
    else tries == 0 && r == OperationFailed
  }

  class GeneratedStateLock {
    const id: nat
    const process: nat
    const machine: Machine
    const timeoutMs: nat
    var threadLocked: bool
    var stream: bool
    var fileLocked: bool

    /** The fields are what the machine knows of this object. */
    ghost predicate Agrees()
      reads this, machine
    {
      && machine.Valid() && id in machine.world.locks
      && machine.world.locks[id] == Lock(process, threadLocked, stream, fileLocked)
    }

    /** Between calls all is held or nothing. */
    ghost predicate Valid()
      reads this, machine
    {
      Agrees() && threadLocked == stream == fileLocked
    }

    /** The steps of this object among those made so far. */
    ghost function Steps(): seq<Event>
      reads machine
    {
      Own(machine.trace, id)
    }

    constructor (id: nat, process: nat, machine: Machine, timeoutMs: nat)
      requires machine.Valid() && id in machine.world.locks
      requires machine.world.locks[id] == Lock(process, false, false, false)
      ensures Valid() && !threadLocked && this.machine == machine && this.id == id
    {
      this.id, this.process, this.machine, this.timeoutMs := id, process, machine, timeoutMs;
      threadLocked, stream, fileLocked := false, false, false;
    }

    // -- single steps --

    /** Whatever the others do here. */
    method Others(events: seq<Event>)
      requires Agrees()
      modifies machine
      ensures Agrees() && machine.start == old(machine.start) && Steps() == old(Steps())
      ensures forall k: nat :: Spare(events, k) ==> machine.Entry(k) == old(machine.Entry(k))
      ensures machine.world == Interfered(old(machine.world), id, events)
    {
      machine.Interfere(id, events);
    }

    /** The thread lock of the process is free, so that this object holds nothing. */
    lemma NotHeld()
      requires Valid() && process !in machine.world.mutexes
      ensures !threadLocked
    {
      RunKeepsInv(machine.start, machine.trace, machine.world);
    }

    method TryThread() returns (ok: bool)
      requires Valid()
      modifies this, machine
      ensures Agrees() && machine.start == old(machine.start) && stream == old(stream) && fileLocked == old(fileLocked)
      ensures ok ==> !old(threadLocked) && threadLocked && Steps() == old(Steps()) + [TakeThread(id)]
      ensures !ok ==> threadLocked == old(threadLocked) && Steps() == old(Steps())
      ensures forall k :: k != id ==> machine.Entry(k) == old(machine.Entry(k))
      ensures ok <==> process !in old(machine.world.mutexes)
      ensures machine.world == if ok then Stepped(old(machine.world), TakeThread(id)) else old(machine.world)
    {
      hide Inv, Initial, Reaches, Own;
      ok := process !in machine.world.mutexes;
      if ok {
        NotHeld();
        OwnOneMore(machine.trace, TakeThread(id), id);
        machine.Do(TakeThread(id));
        threadLocked := true;
      }
    }

    method Open()
      requires Agrees() && threadLocked && !stream && !fileLocked
      modifies this, machine
      ensures Agrees() && machine.start == old(machine.start) && threadLocked && stream && !fileLocked
      ensures Steps() == old(Steps()) + [OpenStream(id)]
      ensures forall k :: k != id ==> machine.Entry(k) == old(machine.Entry(k))
      ensures machine.world == Stepped(old(machine.world), OpenStream(id))
    {
      hide Inv, Initial, Reaches, Own;
      OwnOneMore(machine.trace, OpenStream(id), id);
      machine.Do(OpenStream(id));
      stream := true;
    }

    method TryFile() returns (ok: bool)
      requires Agrees() && threadLocked && stream && !fileLocked
      modifies this, machine
      ensures Agrees() && machine.start == old(machine.start) && threadLocked && stream && fileLocked == ok
      ensures Steps() == old(Steps()) + if ok then [Grant(id)] else []
      ensures forall k :: k != id ==> machine.Entry(k) == old(machine.Entry(k))
      ensures ok <==> old(machine.world.file) == None
      ensures !ok ==> machine.world == old(machine.world)
    {
      hide Inv, Initial, Reaches, Own;
      ok := machine.world.file == None;
      if ok {
        OwnOneMore(machine.trace, Grant(id), id);
        machine.Do(Grant(id));
        fileLocked := true;
      }
    }

    method UnlockFile(ok: bool)
      requires Agrees() && threadLocked && stream && fileLocked
      modifies this, machine
      ensures Agrees() && machine.start == old(machine.start) && threadLocked && stream && !fileLocked
      ensures Steps() == old(Steps()) + [Unlock(id, ok)]
      ensures forall k :: k != id ==> machine.Entry(k) == old(machine.Entry(k))
    {
      hide Inv, Initial, Reaches, Own;
      OwnOneMore(machine.trace, Unlock(id, ok), id);
      machine.Do(Unlock(id, ok));
      fileLocked := false;
    }

    method Close(ok: bool)
      requires Agrees() && stream && !fileLocked
      modifies this, machine
      ensures Agrees() && machine.start == old(machine.start) && threadLocked == old(threadLocked)
      ensures !stream && !fileLocked && Steps() == old(Steps()) + [CloseStream(id, ok)]
      ensures forall k :: k != id ==> machine.Entry(k) == old(machine.Entry(k))
    {
      hide Inv, Initial, Reaches, Own;
      OwnOneMore(machine.trace, CloseStream(id, ok), id);
      machine.Do(CloseStream(id, ok));
      stream := false;
    }

    method FreeThreadLock()
      requires Agrees() && threadLocked && !stream && !fileLocked
      modifies this, machine
      ensures Agrees() && machine.start == old(machine.start) && !threadLocked && !stream && !fileLocked
      ensures Steps() == old(Steps()) + [FreeThread(id)]
      ensures forall k :: k != id ==> machine.Entry(k) == old(machine.Entry(k))
    {
      hide Inv, Initial, Reaches, Own;
      OwnOneMore(machine.trace, FreeThread(id), id);
      machine.Do(FreeThread(id));
      threadLocked := false;
    }

    // -- acquiring and releasing --

    method CleanupAfterFailedAcquire(x: Around)
      requires Agrees() && threadLocked && !fileLocked
      modifies this, machine
      ensures Valid() && !threadLocked && machine.start == old(machine.start)
      ensures Steps() == old(Steps()) + (if old(stream) then [CloseStream(id, x.closes)] else []) + [FreeThread(id)]
      ensures forall k: nat :: k != id && Spare(x.leaving, k) ==> machine.Entry(k) == old(machine.Entry(k))
    {
      hide Agrees, Steps, Spare, Interfered, Stepped;
      if stream {
        Close(x.closes);
      }
      Others(x.leaving);
      FreeThreadLock();
    }

    /** Each outcome is a sequence of possible steps of this object, interleaved with the steps of
        others.  Either all of the lock is held, or an error is returned and nothing is held that
        was not held before; an object that already holds the lock times out and keeps it.  The
        last attempt on the file lock decides, all before it were busy before the deadline, and
        their number is bounded by the timeout. */
    method Acquire(x: Around, started: int) returns (r: Outcome, tries: nat)
      requires Valid() && Ticks(x, started, started + timeoutMs)
      modifies this, machine
      ensures Valid() && machine.start == old(machine.start)
      ensures r == Acquired ==> fileLocked && !old(fileLocked)
      ensures r != Acquired ==> fileLocked == old(fileLocked)
      ensures old(fileLocked) ==> r == TimedOut
      ensures exists steps :: Steps() == old(Steps()) + steps && AcquireSteps(x, id, r, tries, steps)
      ensures forall k: nat :: k + 1 < tries ==> !x.broken(k) && x.checked(k) < started + timeoutMs
      ensures tries > 0 ==>
        && (r == OperationFailed <==> x.broken(tries - 1))
        && (r == TimedOut ==> x.checked(tries - 1) >= started + timeoutMs)
      ensures r == Acquired ==> tries > 0
      ensures tries <= timeoutMs / PAUSE_MS + 3
      ensures forall k: nat :: k != id && x.Spares(k) ==> machine.Entry(k) == old(machine.Entry(k))
      ensures r == TimedOut && tries == 0 <==> process in Interfered(old(machine.world), id, x.waiting).mutexes
      ensures forall k: nat :: k + 1 < tries ==> AtAttempt(Opened(old(machine.world), id, x), id, x, k).file.Some?
      ensures tries > 0 && !x.broken(tries - 1) ==>
        (r == Acquired <==> AtAttempt(Opened(old(machine.world), id, x), id, x, tries - 1).file == None)
    {
      hide Agrees, Steps, Spare, Interfered, Stepped, Ticks, AtAttempt;
      ghost var before := Steps();
      tries := 0;
      Others(x.waiting);
      var ok := TryThread();
      if !ok {
        assert Steps() == before + [] && AcquireSteps(x, id, TimedOut, 0, []);
        return TimedOut, 0;
      }
      Others(x.between);
      r, tries := LockFile(x, started);
      ghost var steps := [TakeThread(id)] + FileSteps(x, id, r);
      assert Steps() == before + steps && AcquireSteps(x, id, r, tries, steps);
    }

    /** What is done under the thread lock. */
    method LockFile(x: Around, started: int) returns (r: Outcome, tries: nat)
      requires Agrees() && threadLocked && !stream && !fileLocked && Ticks(x, started, started + timeoutMs)
      modifies this, machine
      ensures Valid() && machine.start == old(machine.start) && (r == Acquired <==> fileLocked)
      ensures FileOutcome(x, r, tries) && tries <= timeoutMs / PAUSE_MS + 3
      ensures Steps() == old(Steps()) + FileSteps(x, id, r)
      ensures forall k: nat :: k + 1 < tries ==> !x.broken(k) && x.checked(k) < started + timeoutMs
      ensures tries > 0 ==> (r == OperationFailed <==> x.broken(tries - 1))
      ensures tries > 0 && r == TimedOut ==> x.checked(tries - 1) >= started + timeoutMs
      ensures forall k: nat :: k != id && x.Spares(k) ==> machine.Entry(k) == old(machine.Entry(k))
      ensures var w := Stepped(old(machine.world), OpenStream(id));
              && (forall k: nat :: k + 1 < tries ==> AtAttempt(w, id, x, k).file.Some?)
              && (tries > 0 && !x.broken(tries - 1) ==>
                   (r == Acquired <==> AtAttempt(w, id, x, tries - 1).file == None))
    {
      hide Agrees, Steps, Spare, Interfered, Stepped, Ticks, AtAttempt;
      if x.opening != Opens {
        CleanupAfterFailedAcquire(x);
        return if x.opening == Refused then Unavailable else OperationFailed, 0;
      }
      Open();
      if !x.initialized {
        CleanupAfterFailedAcquire(x);
        return OperationFailed, 0;
      }
      r, tries := AwaitFile(x, started);
    }

    method AwaitFile(x: Around, started: int) returns (r: Outcome, tries: nat)
      requires Agrees() && threadLocked && stream && !fileLocked && Ticks(x, started, started + timeoutMs)
      modifies this, machine
      ensures Valid() && machine.start == old(machine.start) && (r == Acquired <==> fileLocked)
      ensures r != Unavailable && 0 < tries <= timeoutMs / PAUSE_MS + 3
      ensures Steps() == old(Steps()) + AwaitSteps(x, id, r)
      ensures forall k: nat :: k + 1 < tries ==> !x.broken(k) && x.checked(k) < started + timeoutMs
      ensures r == OperationFailed <==> x.broken(tries - 1)
      ensures r == TimedOut ==> x.checked(tries - 1) >= started + timeoutMs
      ensures forall k: nat :: k != id && x.Spares(k) ==> machine.Entry(k) == old(machine.Entry(k))
      ensures forall k: nat :: k + 1 < tries ==> AtAttempt(old(machine.world), id, x, k).file.Some?
      ensures !x.broken(tries - 1) ==> (r == Acquired <==> AtAttempt(old(machine.world), id, x, tries - 1).file == None)
    {
      hide Agrees, Steps, Spare, Interfered, Stepped, Ticks, AtAttempt;
      r, tries := TryUntilDeadline(x, started);
      if r != Acquired {
        CleanupAfterFailedAcquire(x);
      }
    }

    /** The attempts on the file lock, until one succeeds, one breaks, or the deadline has passed. */
    method TryUntilDeadline(x: Around, started: int) returns (r: Outcome, tries: nat)
      requires Agrees() && threadLocked && stream && !fileLocked && Ticks(x, started, started + timeoutMs)
      modifies this, machine
      ensures Agrees() && threadLocked && stream && fileLocked == (r == Acquired) && machine.start == old(machine.start)
      ensures r != Unavailable && 0 < tries <= timeoutMs / PAUSE_MS + 3
      ensures Steps() == old(Steps()) + if r == Acquired then [Grant(id)] else []
      ensures forall k: nat :: k + 1 < tries ==> !x.broken(k) && x.checked(k) < started + timeoutMs
      ensures r == OperationFailed <==> x.broken(tries - 1)
      ensures r == TimedOut ==> x.checked(tries - 1) >= started + timeoutMs
      ensures forall k: nat :: k != id && x.Spares(k) ==> machine.Entry(k) == old(machine.Entry(k))
      ensures forall k: nat :: k + 1 < tries ==> AtAttempt(old(machine.world), id, x, k).file.Some?
      ensures !x.broken(tries - 1) ==> (r == Acquired <==> AtAttempt(old(machine.world), id, x, tries - 1).file == None)
    {
      hide Agrees, Steps, Spare, Interfered, Stepped, Ticks, Paced, Pause;
      tries := 0;
      var deadline := started + timeoutMs;
      ghost var reached := started;
      PaceBegins(x, started, timeoutMs);
      while true
        invariant Agrees() && threadLocked && stream && !fileLocked && machine.start == old(machine.start)
        invariant Steps() == old(Steps())
        invariant forall k: nat :: k != id && x.Spares(k) ==> machine.Entry(k) == old(machine.Entry(k))
        invariant forall k: nat :: k < tries ==> !x.broken(k) && x.checked(k) < deadline
        invariant machine.world == WorldAfter(old(machine.world), id, x, tries)
        invariant forall k: nat :: k < tries ==> AtAttempt(old(machine.world), id, x, k).file.Some?
        invariant Paced(x, started, timeoutMs, tries, reached)
        decreases if reached < deadline then deadline - reached else 0
      {
        PaceBounds(x, started, timeoutMs, tries, reached);
        Others(x.before(tries));
        tries := tries + 1;
        if x.broken(tries - 1) {
          return OperationFailed, tries;
        }
        var ok := TryFile();
        if ok {
          return Acquired, tries;
        }
        if x.checked(tries - 1) >= deadline {
          return TimedOut, tries;
        }
        PaceGoesOn(x, started, timeoutMs, tries - 1, reached);
        reached := x.slept(tries - 1) + Pause(deadline, x.slept(tries - 1));
      }
    }

    /** The thread lock is freed whatever fails, an error is reported exactly if something did,
        and the steps made are those of a release. */
    method ReleaseLock(unlocks: bool, closes: bool, between: seq<Event>, leaving: seq<Event>) returns (failed: bool)
      requires Valid()
      modifies this, machine
      ensures Valid() && !threadLocked && machine.start == old(machine.start)
      ensures failed <==> old(fileLocked) && !(unlocks && closes)
      ensures Steps() == old(Steps()) +
              if old(fileLocked) then [Unlock(id, unlocks), CloseStream(id, closes), FreeThread(id)] else []
      ensures forall k: nat :: k != id && Spare(between, k) && Spare(leaving, k) ==>
                machine.Entry(k) == old(machine.Entry(k))
    {
      hide Agrees, Steps, Spare, Interfered, Stepped;
      failed := false;
      if fileLocked && stream {
        UnlockFile(unlocks);
        if !unlocks { failed := true; }
      }
      Others(between);
      if stream {
        Close(closes);
        if !closes { failed := true; }
      }
      Others(leaving);
      if threadLocked {
        FreeThreadLock();
      }
    }
  }

  // ---- getting the lock ----

  /** Nobody else does anything. */
  ghost predicate Quiet(x: Around) {
    x.waiting == [] && x.between == [] && forall n :: x.before(n) == []
  }

  lemma {:induction false} QuietAttempt(w: World, l: nat, x: Around, k: nat)
    requires Quiet(x)
    ensures AtAttempt(w, l, x, k) == w
    decreases k
  {
    if k > 0 { QuietAttempt(w, l, x, k - 1); }
  }

  lemma QuietOpened(w: World, l: nat, x: Around)
    requires Quiet(x)
    ensures Interfered(w, l, x.waiting) == w && Opened(w, l, x).file == w.file
  {
  }

  /** When nobody interferes, a call gets the lock exactly if the thread lock and the file lock are
      free, the file can be opened, and the first attempt does not break; at the first attempt. */
  method AcquireAlone(a: GeneratedStateLock, x: Around, started: int) returns (r: Outcome, tries: nat)
    requires a.Valid() && Ticks(x, started, started + a.timeoutMs) && Quiet(x)
    modifies a, a.machine
    ensures a.Valid() && (r == Acquired ==> a.fileLocked && tries == 1)
    ensures r == Acquired <==>
      && a.process !in old(a.machine.world.mutexes) && x.opening == Opens && x.initialized
      && old(a.machine.world.file) == None && !x.broken(0)
  {
    ghost var w := a.machine.world;
    r, tries := a.Acquire(x, started);
    QuietOpened(w, a.id, x);
    QuietAttempt(Opened(w, a.id, x), a.id, x, 0);
    if tries > 0 { QuietAttempt(Opened(w, a.id, x), a.id, x, tries - 1); }
    hide Opened, AtAttempt, Interfered;
  }

  /** Two lock objects of one machine never both hold the lock. */
  lemma NeverBothLocked(a: GeneratedStateLock, b: GeneratedStateLock)
    requires a.Agrees() && b.Agrees() && a.machine == b.machine && a.id != b.id
    ensures !(a.fileLocked && b.fileLocked)
    ensures a.process == b.process ==> !(a.threadLocked && b.threadLocked)
  {
    RunKeepsInv(a.machine.start, a.machine.trace, a.machine.world);
  }

  /** A call on one object keeps another in agreement with the machine, if that one does nothing
      meanwhile. */
  lemma StillAgrees(a: GeneratedStateLock, entry: Option<Lock>)
    requires a.machine.Valid() && a.machine.Entry(a.id) == entry
    requires entry == Some(Lock(a.process, a.threadLocked, a.stream, a.fileLocked))
    ensures a.Agrees()
  {
  }

  /** Whatever third objects do, two objects that acquire the lock one after the other do not both
      get it; and the one that has it keeps it. */
  method AcquireBoth(a: GeneratedStateLock, b: GeneratedStateLock, x: Around, y: Around, now: int, later: int)
    returns (first: Outcome, second: Outcome)
    requires a != b && a.id != b.id && a.machine == b.machine && a.Valid() && b.Valid()
    requires x.Spares(b.id) && y.Spares(a.id)
    requires Ticks(x, now, now + a.timeoutMs) && Ticks(y, later, later + b.timeoutMs)
    modifies a, b, a.machine
    ensures a.Valid() && b.Valid() && !(a.fileLocked && b.fileLocked)
    ensures first == Acquired ==> a.fileLocked && second != Acquired
  {
    var tries: nat;
    first, tries := a.Acquire(x, now);
    StillAgrees(b, old(b.machine.Entry(b.id)));
    second, tries := b.Acquire(y, later);
    StillAgrees(a, a.machine.Entry(a.id));
    NeverBothLocked(a, b);
  }
}
