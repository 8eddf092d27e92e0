/** Loading a dotted chain of modules with an undo log (plugins/module_resolver.py). */
module ModuleResolver {
  import opened Options

  /** The identity of a module object. */
  type Mod = nat

  /** A dotted name, by its parts; the prefixes of a name are its parents. */
  type Name = seq<string>

  type Key = (Mod, string)

  type Table = map<Name, Mod>

  type Attributes = map<Key, Mod>

  /** The module table and the namespaces of all modules. */
  datatype State = State(modules: Table, attributes: Attributes)

  datatype ModuleUndo = ModuleUndo(name: Name, created: Mod, replacement: Option<Mod>) {
    predicate Matches(current: Mod) { current == created || replacement == Some(current) }
  }

  datatype AttributeUndo = AttributeUndo(key: Key, previous: Option<Mod>)

  datatype Visit = BeforeLoading | AtItsTurn

  /** One call: the parts of the name, whether the specs of the whole chain were found, the
      module object made for each element, what running its code does and whether it raises,
      and which modules pass validation. */
  datatype Call = Call(
    parts: Name, found: bool, created: seq<Mod>, code: (nat, State) -> State, raises: nat -> bool,
    valid: (Visit, nat, Mod) -> bool)
  {
    predicate Proper() { 1 <= |parts| == |created| }

    function Prefix(k: nat): Name
      requires k < |parts|
    {
      parts[..k + 1]
    }

    /** Code that touches at most its own entry of the module table and its own namespace. */
    ghost predicate Contained()
      requires Proper()
    {
      forall k, s :: 0 <= k < |parts| ==> SameOutside(s, code(k, s), Prefix(k), created[k])
    }

    /** Module objects are new: not in the table, and different for each element. */
    ghost predicate Fresh(s: State)
      requires Proper()
    {
      && (forall k, name :: 0 <= k < |parts| && name in s.modules ==> s.modules[name] != created[k])
      && (forall j, k :: 0 <= j < k < |parts| ==> created[j] != created[k])
    }
  }

  ghost predicate SameAt<K, V>(a: map<K, V>, b: map<K, V>, k: K) {
    (k in a <==> k in b) && (k in a && k in b ==> a[k] == b[k])
  }

  ghost predicate SameOutside(s: State, t: State, name: Name, module_: Mod) {
    && (forall n :: n != name ==> SameAt(s.modules, t.modules, n))
    && (forall key: Key :: key.0 != module_ ==> SameAt(s.attributes, t.attributes, key))
  }

  // ---- the undo log ----

  function Without<K, V>(m: map<K, V>, k: K): map<K, V> { m - {k} }

  function UndoAttribute(a: Attributes, undo: AttributeUndo): Attributes {
    if undo.previous.Some? then a[undo.key := undo.previous.value] else Without(a, undo.key)
  }

  function UndoAttributes(a: Attributes, log: seq<AttributeUndo>): Attributes
    decreases |log|
  {
    if log == [] then a else UndoAttributes(UndoAttribute(a, log[|log| - 1]), log[..|log| - 1])
  }

  function UndoModule(m: Table, undo: ModuleUndo): Table {
    if undo.name in m && undo.Matches(m[undo.name]) then Without(m, undo.name) else m
  }

  function UndoModules(m: Table, log: seq<ModuleUndo>): Table
    decreases |log|
  {
    if log == [] then m else UndoModules(UndoModule(m, log[|log| - 1]), log[..|log| - 1])
  }

  // ---- one element ----

  datatype Walk = Walk(
    state: State, modules: seq<ModuleUndo>, attributes: seq<AttributeUndo>, loaded: seq<Mod>, failed: bool)

  function Record(a: Attributes, key: Key): AttributeUndo {
    AttributeUndo(key, if key in a then Some(a[key]) else None)
  }

  /** The module for element k: the one already there, or a new one whose code is run. */
  datatype Acquired = Acquired(state: State, undo: Option<ModuleUndo>, module_: Mod, ok: bool)

  function Acquire(x: Call, before: Table, k: nat, s: State): Acquired
    requires x.Proper() && k < |x.parts|
  {
    var name := x.Prefix(k);
    if name in before then
      Acquired(s, None, before[name],
               name in s.modules && s.modules[name] == before[name] && x.valid(AtItsTurn, k, before[name]))
    else if name in s.modules then
      Acquired(s, None, s.modules[name], x.valid(AtItsTurn, k, s.modules[name]))
    else
      var created := x.created[k];
      Acquired(x.code(k, s.(modules := s.modules[name := created])), Some(ModuleUndo(name, created, None)), created,
               !x.raises(k) && x.valid(AtItsTurn, k, created))
  }

  function Step(x: Call, before: Table, k: nat, w: Walk): Walk
    requires x.Proper() && k < |x.parts| && k <= |w.loaded|
  {
    var name := x.Prefix(k);
    var attributes := if k == 0 then w.attributes
                      else w.attributes + [Record(w.state.attributes, (w.loaded[k - 1], x.parts[k]))];
    var a := Acquire(x, before, k, w.state);
    var log := if a.undo.Some? then w.modules + [a.undo.value] else w.modules;
    if !a.ok then Walk(a.state, log, attributes, w.loaded, true)
    else if name !in a.state.modules then Walk(a.state, log, attributes, w.loaded, true)
    else if a.state.modules[name] != a.module_ then
      var noted := if a.undo.None? then log
                   else w.modules + [a.undo.value.(replacement := Some(a.state.modules[name]))];
      Walk(a.state, noted, attributes, w.loaded, true)
    else if k == 0 then Walk(a.state, log, attributes, w.loaded + [a.module_], false)
    else
      var key := (w.loaded[k - 1], x.parts[k]);
      if key !in a.state.attributes then
        var bound := a.state.(attributes := a.state.attributes[key := a.module_]);
        Walk(bound, log, attributes, w.loaded + [a.module_], false)
      else
        Walk(a.state, log, attributes, w.loaded + [a.module_], a.state.attributes[key] != a.module_)
  }

  function Steps(x: Call, before: Table, k: nat, w: Walk): Walk
    requires x.Proper() && k <= |x.parts| && k <= |w.loaded|
    decreases |x.parts| - k
  {
    if k == |x.parts| || w.failed then w
    else
      var next := Step(x, before, k, w);
      if next.failed then next else Steps(x, before, k + 1, next)
  }

  /** The first n elements, as far as they are in the table. */
  function Present(x: Call, m: Table, n: nat): Table
    requires x.Proper() && n <= |x.parts|
  {
    map k | 0 <= k < n && x.Prefix(k) in m :: x.Prefix(k) := m[x.Prefix(k)]
  }

  lemma PresentNext(x: Call, m: Table, n: nat)
    requires x.Proper() && n < |x.parts|
    ensures Present(x, m, n + 1) ==
            if x.Prefix(n) in m then Present(x, m, n)[x.Prefix(n) := m[x.Prefix(n)]] else Present(x, m, n)
  {
  }

  /** The elements already in the table when the call starts. */
  function Preexisting(x: Call, m: Table): Table
    requires x.Proper()
  {
    Present(x, m, |x.parts|)
  }

  predicate FirstPass(x: Call, m: Table)
    requires x.Proper()
  {
    x.found && forall k :: 0 <= k < |x.parts| && x.Prefix(k) in m ==> x.valid(BeforeLoading, k, m[x.Prefix(k)])
  }

  function Loading(x: Call, s: State): Walk
    requires x.Proper()
  {
    Steps(x, Preexisting(x, s.modules), 0, Walk(s, [], [], [], !FirstPass(x, s.modules)))
  }

  function Cleanup(w: Walk): State {
    State(UndoModules(w.state.modules, w.modules), UndoAttributes(w.state.attributes, w.attributes))
  }

  function Resolve(x: Call, s: State): (State, Option<Mod>)
    requires x.Proper()
  {
    var w := Loading(x, s);
    if w.failed then (Cleanup(w), None)
    else if w.loaded == [] then (w.state, None)
    else (w.state, Some(w.loaded[|w.loaded| - 1]))
  }

  // ---- cleaning up ----

  predicate Clears(log: seq<ModuleUndo>, name: Name, current: Mod) {
    exists i :: 0 <= i < |log| && log[i].name == name && log[i].Matches(current)
  }

  /** The cleanup removes exactly the entries that hold what the log says this call put there. */
  lemma {:induction false} CleanupRemovesOwn(m: Table, log: seq<ModuleUndo>)
    ensures forall name :: name in UndoModules(m, log) <==> name in m && !Clears(log, name, m[name])
    ensures forall name :: name in UndoModules(m, log) ==> UndoModules(m, log)[name] == m[name]
    decreases |log|
  {
    if log != [] {
      var n := |log| - 1;
      var next := UndoModule(m, log[n]);
      CleanupRemovesOwn(next, log[..n]);
      forall name | name in m
        ensures Clears(log, name, m[name]) <==>
                Clears(log[..n], name, m[name]) || (log[n].name == name && log[n].Matches(m[name]))
      {
        if Clears(log[..n], name, m[name]) {
          var i :| 0 <= i < n && log[..n][i].name == name && log[..n][i].Matches(m[name]);
          assert log[i] == log[..n][i];
        }
        if Clears(log, name, m[name]) {
          var i :| 0 <= i < |log| && log[i].name == name && log[i].Matches(m[name]);
          if i < n { assert log[..n][i] == log[i]; }
        }
      }
    }
  }

  ghost predicate AgreeOff(a: Attributes, b: Attributes, modules: seq<Mod>) {
    forall key: Key :: key.0 !in modules ==> SameAt(a, b, key)
  }

  lemma {:induction false} UndoAgrees(a: Attributes, b: Attributes, log: seq<AttributeUndo>, modules: seq<Mod>)
    requires AgreeOff(a, b, modules)
    ensures AgreeOff(UndoAttributes(a, log), UndoAttributes(b, log), modules)
    decreases |log|
  {
    if log != [] {
      var n := |log| - 1;
      UndoAgrees(UndoAttribute(a, log[n]), UndoAttribute(b, log[n]), log[..n], modules);
    }
  }

  /** A record taken before a change to its key undoes that change. */
  lemma RecordUndoes(a: Attributes, key: Key, later: Attributes, log: seq<AttributeUndo>, modules: seq<Mod>)
    requires forall other: Key :: other != key && other.0 !in modules ==> SameAt(later, a, other)
    ensures AgreeOff(UndoAttributes(later, log + [Record(a, key)]), UndoAttributes(a, log), modules)
  {
    var full := log + [Record(a, key)];
    assert full[..|full| - 1] == log;
    UndoAgrees(UndoAttribute(later, Record(a, key)), a, log, modules);
  }

  // ---- the module table ----

  /** Every record is of a name that was free at the start and now holds the module made for
      it; all other names are as at the start. */
  ghost predicate TracksModules(x: Call, start: Table, k: nat, w: Walk)
    requires x.Proper()
  {
    && (forall i :: 0 <= i < |w.modules| ==>
         var e := w.modules[i];
         && e.name !in start && |e.name| <= k && e.replacement == None
         && e.name in w.state.modules && w.state.modules[e.name] == e.created)
    && (forall name :: Recorded(w.modules, name) || SameAt(w.state.modules, start, name))
  }

  predicate Recorded(log: seq<ModuleUndo>, name: Name) {
    exists i :: 0 <= i < |log| && log[i].name == name
  }

  /** The last new module put another object under its own name and then raised or failed its
      check, so that the replacement was never noted. */
  predicate Leaks(x: Call, w: Walk) {
    w.failed && w.modules != [] &&
    var e := w.modules[|w.modules| - 1];
    && (|e.name| >= 1 && (x.raises(|e.name| - 1) || !x.valid(AtItsTurn, |e.name| - 1, e.created)))
    && e.name in w.state.modules && !e.Matches(w.state.modules[e.name])
  }

  function AfterFailure(x: Call, start: Table, w: Walk): Table {
    if Leaks(x, w) then
      var name := w.modules[|w.modules| - 1].name;
      start[name := w.state.modules[name]]
    else start
  }

  lemma CleansTo(x: Call, start: Table, k: nat, w: Walk)
    requires x.Proper() && TracksModules(x, start, k, w)
    ensures UndoModules(w.state.modules, w.modules) == start
  {
    var m, log := w.state.modules, w.modules;
    CleanupRemovesOwn(m, log);
    forall name ensures SameAt(UndoModules(m, log), start, name) {
      if Recorded(log, name) {
        var i :| 0 <= i < |log| && log[i].name == name;
        assert Clears(log, name, m[name]);
      } else {
        assert name in m ==> !Clears(log, name, m[name]);
      }
    }
    SameMaps(UndoModules(m, log), start);
  }

  /** What a step for a name that is not in the table does to the table and the log. */
  ghost predicate LoadsNew(x: Call, k: nat, w: Walk, next: Walk)
    requires x.Proper() && k < |x.parts|
  {
    var name, n := x.Prefix(k), |w.modules|;
    && |next.modules| == n + 1 && next.modules[..n] == w.modules
    && (forall other :: other != name ==> SameAt(next.state.modules, w.state.modules, other))
    && var e := next.modules[n];
    && e.name == name && e.created == x.created[k]
    && (e.replacement.Some? ==> name in next.state.modules && e.Matches(next.state.modules[name]))
    && (name in next.state.modules && next.state.modules[name] != e.created ==>
         next.failed && (e.replacement.None? <==> x.raises(k) || !x.valid(AtItsTurn, k, e.created)))
    && (name in next.state.modules && next.state.modules[name] == e.created ==> e.replacement.None?)
    && (!next.failed ==> name in next.state.modules && |next.loaded| == |w.loaded| + 1)
  }

  lemma NewStepLoads(x: Call, before: Table, k: nat, w: Walk)
    requires x.Proper() && x.Contained() && k < |x.parts| && |w.loaded| == k
    requires x.Prefix(k) !in before && x.Prefix(k) !in w.state.modules
    ensures LoadsNew(x, k, w, Step(x, before, k, w))
  {
    var name, created := x.Prefix(k), x.created[k];
    var s := w.state.(modules := w.state.modules[name := created]);
    assert SameOutside(s, x.code(k, s), name, created);
    var next := Step(x, before, k, w);
    assert next.state.modules == x.code(k, s).modules;
    forall other | other != name ensures SameAt(next.state.modules, w.state.modules, other) {
      assert SameAt(s.modules, x.code(k, s).modules, other);
    }
  }

  lemma NewStepTracks(x: Call, start: Table, k: nat, w: Walk, next: Walk)
    requires x.Proper() && k < |x.parts| && |w.loaded| == k
    requires TracksModules(x, start, k, w) && x.Prefix(k) !in start && LoadsNew(x, k, w, next)
    ensures !next.failed ==> TracksModules(x, start, k + 1, next)
    ensures next.failed ==> UndoModules(next.state.modules, next.modules) == AfterFailure(x, start, next)
  {
    var name, m, n := x.Prefix(k), next.state.modules, |w.modules|;
    assert !Recorded(w.modules, name);
    assert next.modules == w.modules + [next.modules[n]];
    RecordedExtends(w.modules, next.modules[n]);
    if name in m && m[name] == x.created[k] {
      TracksExtends(x, start, k, w, next);
      CleansTo(x, start, k + 1, next);
    } else {
      FailedStepCleans(x, start, k, w, next);
    }
  }

  lemma TracksExtends(x: Call, start: Table, k: nat, w: Walk, next: Walk)
    requires x.Proper() && k < |x.parts|
    requires TracksModules(x, start, k, w) && x.Prefix(k) !in start && LoadsNew(x, k, w, next)
    requires x.Prefix(k) in next.state.modules && next.state.modules[x.Prefix(k)] == x.created[k]
    ensures TracksModules(x, start, k + 1, next)
  {
    var n := |w.modules|;
    assert next.modules == w.modules + [next.modules[n]];
    RecordedExtends(w.modules, next.modules[n]);
    forall i | 0 <= i < |next.modules|
      ensures var e := next.modules[i];
              && e.name !in start && |e.name| <= k + 1 && e.replacement == None
              && e.name in next.state.modules && next.state.modules[e.name] == e.created
    {
      if i < n {
        var e := next.modules[i];
        assert e == w.modules[i];
        assert SameAt(next.state.modules, w.state.modules, e.name);
      }
    }
    forall name | !Recorded(next.modules, name) ensures SameAt(next.state.modules, start, name) {
      assert SameAt(next.state.modules, w.state.modules, name);
    }
  }

  lemma RecordedExtends(log: seq<ModuleUndo>, e: ModuleUndo)
    ensures forall name :: Recorded(log + [e], name) <==> Recorded(log, name) || name == e.name
  {
    forall name ensures Recorded(log + [e], name) <==> Recorded(log, name) || name == e.name {
      if Recorded(log, name) {
        var i :| 0 <= i < |log| && log[i].name == name;
        assert (log + [e])[i].name == name;
      }
      assert (log + [e])[|log|] == e;
    }
  }

  lemma FailedStepCleans(x: Call, start: Table, k: nat, w: Walk, next: Walk)
    requires x.Proper() && k < |x.parts|
    requires TracksModules(x, start, k, w) && x.Prefix(k) !in start && LoadsNew(x, k, w, next)
    requires next.failed
    ensures UndoModules(next.state.modules, next.modules) == AfterFailure(x, start, next)
  {
    var m, log, n := next.state.modules, next.modules, |w.modules|;
    var e := log[n];
    CleanupRemovesOwn(m, log);
    RecordedExtends(w.modules, e);
    assert log == w.modules + [e];
    forall name ensures SameAt(UndoModules(m, log), AfterFailure(x, start, next), name) {
      if name == e.name {
        assert !Recorded(w.modules, name);
        assert name in m ==> (Clears(log, name, m[name]) <==> e.Matches(m[name]));
      } else {
        assert SameAt(m, w.state.modules, name);
        if Recorded(w.modules, name) {
          var i :| 0 <= i < n && w.modules[i].name == name;
          assert log[i] == w.modules[i];
          assert Clears(log, name, m[name]);
        } else {
          assert !Recorded(log, name);
          assert name in m ==> !Clears(log, name, m[name]);
        }
      }
    }
    SameMaps(UndoModules(m, log), AfterFailure(x, start, next));
  }

  lemma SameMaps<K, V>(a: map<K, V>, b: map<K, V>)
    requires forall k :: SameAt(a, b, k)
    ensures a == b
  {
    forall k ensures k in a <==> k in b { assert SameAt(a, b, k); }
    assert a.Keys == b.Keys;
    forall k | k in a ensures a[k] == b[k] { assert SameAt(a, b, k); }
  }

  lemma StepTracksModules(x: Call, start: Table, k: nat, w: Walk)
    requires x.Proper() && x.Contained() && k < |x.parts| && |w.loaded| == k && !w.failed
    requires TracksModules(x, start, k, w)
    ensures var next := Step(x, Preexisting(x, start), k, w);
            && (!next.failed ==> |next.loaded| == k + 1 && TracksModules(x, start, k + 1, next))
            && (next.failed ==> UndoModules(next.state.modules, next.modules) == AfterFailure(x, start, next))
  {
    var next := Step(x, Preexisting(x, start), k, w);
    var name := x.Prefix(k);
    assert name in start <==> name in Preexisting(x, start);
    assert !Recorded(w.modules, name) && SameAt(w.state.modules, start, name);
    if name in start {
      assert next.state.modules == w.state.modules && next.modules == w.modules;
      assert TracksModules(x, start, k + 1, next);
      CleansTo(x, start, k + 1, next);
    } else {
      NewStepLoads(x, Preexisting(x, start), k, w);
      NewStepTracks(x, start, k, w, next);
    }
  }

  // ---- the namespaces ----

  /** Undoing the log gives the namespaces of the start, except for the new modules' own. */
  ghost predicate TracksAttributes(x: Call, start: Attributes, w: Walk) {
    AgreeOff(UndoAttributes(w.state.attributes, w.attributes), start, x.created)
  }

  lemma StepAttributes(x: Call, before: Table, k: nat, w: Walk)
    requires x.Proper() && x.Contained() && k < |x.parts| && |w.loaded| == k
    ensures var next := Step(x, before, k, w);
            && (k == 0 ==>
                 && next.attributes == w.attributes
                 && AgreeOff(next.state.attributes, w.state.attributes, x.created))
            && (k > 0 ==>
                 var key := (w.loaded[k - 1], x.parts[k]);
                 && next.attributes == w.attributes + [Record(w.state.attributes, key)]
                 && forall other: Key :: other != key && other.0 !in x.created ==>
                      SameAt(next.state.attributes, w.state.attributes, other))
  {
    var name, created := x.Prefix(k), x.created[k];
    var s := w.state.(modules := w.state.modules[name := created]);
    assert SameOutside(s, x.code(k, s), name, created);
    var after := Acquire(x, before, k, w.state).state.attributes;
    forall other: Key | other.0 !in x.created ensures SameAt(after, w.state.attributes, other) {
      assert SameAt(s.attributes, x.code(k, s).attributes, other);
    }
  }

  lemma StepTracksAttributes(x: Call, start: Attributes, before: Table, k: nat, w: Walk)
    requires x.Proper() && x.Contained() && k < |x.parts| && |w.loaded| == k
    requires TracksAttributes(x, start, w)
    ensures TracksAttributes(x, start, Step(x, before, k, w))
  {
    var next := Step(x, before, k, w);
    StepAttributes(x, before, k, w);
    if k == 0 {
      UndoAgrees(next.state.attributes, w.state.attributes, w.attributes, x.created);
    } else {
      RecordUndoes(w.state.attributes, (w.loaded[k - 1], x.parts[k]), next.state.attributes, w.attributes, x.created);
    }
  }

  // ---- the whole call ----

  lemma {:induction false} StepsTrack(x: Call, s: State, k: nat, w: Walk)
    requires x.Proper() && x.Contained() && k <= |x.parts| && |w.loaded| == k && !w.failed
    requires TracksModules(x, s.modules, k, w) && TracksAttributes(x, s.attributes, w)
    ensures var end := Steps(x, Preexisting(x, s.modules), k, w);
            && TracksAttributes(x, s.attributes, end)
            && (!end.failed ==> |end.loaded| == |x.parts| && TracksModules(x, s.modules, |x.parts|, end))
            && (end.failed ==> UndoModules(end.state.modules, end.modules) == AfterFailure(x, s.modules, end))
    decreases |x.parts| - k
  {
    hide Step;
    if k < |x.parts| {
      var next := Step(x, Preexisting(x, s.modules), k, w);
      StepTracksModules(x, s.modules, k, w);
      StepTracksAttributes(x, s.attributes, Preexisting(x, s.modules), k, w);
      if !next.failed { StepsTrack(x, s, k + 1, next); }
    }
  }

  lemma LoadingTracks(x: Call, s: State)
    requires x.Proper() && x.Contained()
    ensures var end := Loading(x, s);
            && TracksAttributes(x, s.attributes, end)
            && (!end.failed ==> |end.loaded| == |x.parts| && TracksModules(x, s.modules, |x.parts|, end))
            && (end.failed ==> UndoModules(end.state.modules, end.modules) == AfterFailure(x, s.modules, end))
  {
    var w := Walk(s, [], [], [], !FirstPass(x, s.modules));
    if !w.failed { StepsTrack(x, s, 0, w); }
  }

  /** If the code of each module touches no more than its own entry and its own namespace, a
      failure anywhere in the chain restores the namespaces of all other modules, and restores
      the module table unless the failing module had replaced itself in the table before it
      raised or failed its check; then that one replacement stays behind, under a name that
      was free. */
  lemma FailureRestores(x: Call, s: State)
    requires x.Proper() && x.Contained() && Resolve(x, s).1.None?
    ensures var (after, w) := (Resolve(x, s).0, Loading(x, s));
            && AgreeOff(after.attributes, s.attributes, x.created)
            && (after.modules == s.modules <==> !Leaks(x, w))
            && (Leaks(x, w) ==>
                 var name := w.modules[|w.modules| - 1].name;
                 name !in s.modules && after.modules == s.modules[name := w.state.modules[name]])
  {
    LoadingTracks(x, s);
    var w := Loading(x, s);
    RecordedWereFree(x, s);
    if Leaks(x, w) {
      var name := w.modules[|w.modules| - 1].name;
      assert name in AfterFailure(x, s.modules, w);
    }
  }

  /** A module that puts another object under its own name and then raises. */
  function Replacing(part: string, own: Mod, other: Mod): Call {
    Call([part], true, [own], (k: nat, s: State) => s.(modules := s.modules[[part] := other]), (k: nat) => true,
         (v: Visit, k: nat, m: Mod) => true)
  }

  lemma ReplacingIsFair(part: string, own: Mod, other: Mod)
    ensures var x := Replacing(part, own, other);
            && x.Proper() && x.Contained() && x.Fresh(State(map[], map[])) && x.Prefix(0) == [part]
  {
    var x := Replacing(part, own, other);
    assert x.parts[..1] == [part];
    forall k, t | 0 <= k < |x.parts| ensures SameOutside(t, x.code(k, t), x.Prefix(k), x.created[k]) {
      assert x.Prefix(k) == [part];
    }
  }

  lemma ReplacingStep(part: string, own: Mod, other: Mod)
    requires own != other
    ensures var x := Replacing(part, own, other);
            && x.Proper() && Preexisting(x, map[]) == map[]
            && Step(x, map[], 0, Walk(State(map[], map[]), [], [], [], false)) ==
               Walk(State(map[[part] := other], map[]), [ModuleUndo([part], own, None)], [], [], true)
  {
    ReplacingIsFair(part, own, other);
    var w := Step(Replacing(part, own, other), map[], 0, Walk(State(map[], map[]), [], [], [], false));
    assert w.modules == [ModuleUndo([part], own, None)];
    assert w.state.modules == map[[part] := other];
  }

  /** The leak at every call of this kind, starting with an empty table. */
  lemma ReplacementLeaks(part: string, own: Mod, other: Mod)
    requires own != other
    ensures var x, s := Replacing(part, own, other), State(map[], map[]);
            && x.Proper() && x.Contained() && x.Fresh(s)
            && Leaks(x, Loading(x, s)) && Resolve(x, s) == (State(map[[part] := other], map[]), None)
  {
    var x, s := Replacing(part, own, other), State(map[], map[]);
    ReplacingIsFair(part, own, other);
    ReplacingStep(part, own, other);
    hide Step, Preexisting;
    var w := Loading(x, s);
    assert w == Walk(State(map[[part] := other], map[]), [ModuleUndo([part], own, None)], [], [], true);
    hide Loading, Steps;
    CleanupRemovesOwn(w.state.modules, w.modules);
    assert UndoModules(w.state.modules, w.modules) == w.state.modules;
  }

  // ---- for any code ----

  /** Records are of prefixes of the name that were free when the call started. */
  ghost predicate RecordsFree(before: Table, x: Call, log: seq<ModuleUndo>) {
    forall i :: 0 <= i < |log| ==>
      var name := log[i].name;
      name !in before && 1 <= |name| <= |x.parts| && name == x.parts[..|name|]
  }

  lemma StepRecordsFree(x: Call, before: Table, k: nat, w: Walk)
    requires x.Proper() && k < |x.parts| && k <= |w.loaded| && RecordsFree(before, x, w.modules)
    ensures RecordsFree(before, x, Step(x, before, k, w).modules)
    ensures !Step(x, before, k, w).failed ==> k + 1 <= |Step(x, before, k, w).loaded|
  {
  }

  lemma {:induction false} StepsRecordFree(x: Call, before: Table, k: nat, w: Walk)
    requires x.Proper() && k <= |x.parts| && k <= |w.loaded| && RecordsFree(before, x, w.modules)
    ensures RecordsFree(before, x, Steps(x, before, k, w).modules)
    decreases |x.parts| - k
  {
    hide Step, RecordsFree;
    if k < |x.parts| && !w.failed {
      StepRecordsFree(x, before, k, w);
      var next := Step(x, before, k, w);
      if !next.failed { StepsRecordFree(x, before, k + 1, next); }
    }
  }

  lemma RecordedWereFree(x: Call, s: State)
    requires x.Proper()
    ensures forall i :: 0 <= i < |Loading(x, s).modules| ==> Loading(x, s).modules[i].name !in s.modules
  {
    StepsRecordFree(x, Preexisting(x, s.modules), 0, Walk(s, [], [], [], !FirstPass(x, s.modules)));
    forall i | 0 <= i < |Loading(x, s).modules| ensures Loading(x, s).modules[i].name !in s.modules {
      var name := Loading(x, s).modules[i].name;
      assert name == x.Prefix(|name| - 1);
    }
  }

  /** Whatever the loaded code does, the cleanup never removes or changes an entry that was in
      the table when the call started: it leaves it as the code left it. */
  lemma CleanupSparesPreexisting(x: Call, s: State, name: Name)
    requires x.Proper() && name in s.modules
    ensures SameAt(Resolve(x, s).0.modules, Loading(x, s).state.modules, name)
  {
    var w := Loading(x, s);
    RecordedWereFree(x, s);
    CleanupRemovesOwn(w.state.modules, w.modules);
  }

  // ---- success ----

  /** The first k elements are registered and hold modules of their own; each is bound as an
      attribute of its parent; no older attribute of another module has changed. */
  ghost predicate Registered(x: Call, start: State, k: nat, w: Walk)
    requires x.Proper() && k <= |x.parts|
  {
    && |w.loaded| == k
    && forall j :: 0 <= j < k ==>
         && x.Prefix(j) in w.state.modules && w.state.modules[x.Prefix(j)] == w.loaded[j]
         && (w.loaded[j] == x.created[j] || (x.Prefix(j) in start.modules && w.loaded[j] == start.modules[x.Prefix(j)]))
  }

  ghost predicate Bound(x: Call, k: nat, w: Walk)
    requires k <= |x.parts|
  {
    && |w.loaded| == k
    && forall j :: 0 < j < k ==>
         (w.loaded[j - 1], x.parts[j]) in w.state.attributes
         && w.state.attributes[(w.loaded[j - 1], x.parts[j])] == w.loaded[j]
  }

  ghost predicate KeepsAttributes(x: Call, start: Attributes, a: Attributes) {
    forall key: Key :: key.0 !in x.created && key in start ==> SameAt(a, start, key)
  }

  ghost predicate Advances(x: Call, start: State, k: nat, w: Walk, next: Walk)
    requires x.Proper() && k < |x.parts| && |w.loaded| == k
  {
    && |next.loaded| == k + 1 && next.loaded[..k] == w.loaded
    && x.Prefix(k) in next.state.modules && next.state.modules[x.Prefix(k)] == next.loaded[k]
    && (next.loaded[k] == x.created[k] ||
        (x.Prefix(k) in start.modules && next.loaded[k] == start.modules[x.Prefix(k)]))
    && (forall other :: other != x.Prefix(k) ==> SameAt(next.state.modules, w.state.modules, other))
    && (k > 0 ==>
         var key := (w.loaded[k - 1], x.parts[k]);
         key in next.state.attributes && next.state.attributes[key] == next.loaded[k])
    && (forall key: Key :: key.0 != x.created[k] && key in w.state.attributes ==>
         SameAt(next.state.attributes, w.state.attributes, key))
  }

  lemma AcquireTouches(x: Call, before: Table, k: nat, w: Walk)
    requires x.Proper() && x.Contained() && k < |x.parts|
    ensures var s := Acquire(x, before, k, w.state).state;
            && (forall other :: other != x.Prefix(k) ==> SameAt(s.modules, w.state.modules, other))
            && (forall key: Key :: key.0 != x.created[k] ==> SameAt(s.attributes, w.state.attributes, key))
  {
    var name, created := x.Prefix(k), x.created[k];
    var inserted := w.state.(modules := w.state.modules[name := created]);
    var acquired := Acquire(x, before, k, w.state);
    assert SameOutside(inserted, x.code(k, inserted), name, created);
    forall other | other != name ensures SameAt(acquired.state.modules, w.state.modules, other) {
      assert SameAt(inserted.modules, x.code(k, inserted).modules, other);
    }
    forall key: Key | key.0 != created ensures SameAt(acquired.state.attributes, w.state.attributes, key) {
      assert SameAt(inserted.attributes, x.code(k, inserted).attributes, key);
    }
  }

  lemma AcquireTakes(x: Call, start: State, k: nat, w: Walk)
    requires x.Proper() && k < |x.parts| && SameAt(w.state.modules, start.modules, x.Prefix(k))
    ensures var a := Acquire(x, Preexisting(x, start.modules), k, w.state);
            || a.module_ == x.created[k]
            || (x.Prefix(k) in start.modules && a.module_ == start.modules[x.Prefix(k)])
  {
  }

  lemma StepAdvances(x: Call, start: State, k: nat, w: Walk)
    requires x.Proper() && x.Contained() && k < |x.parts| && |w.loaded| == k
    requires SameAt(w.state.modules, start.modules, x.Prefix(k))
    requires !Step(x, Preexisting(x, start.modules), k, w).failed
    ensures Advances(x, start, k, w, Step(x, Preexisting(x, start.modules), k, w))
  {
    AcquireTouches(x, Preexisting(x, start.modules), k, w);
    AcquireTakes(x, start, k, w);
    hide Acquire, Preexisting;
  }

  lemma AdvanceRegisters(x: Call, s: State, k: nat, w: Walk, next: Walk)
    requires x.Proper() && x.Fresh(s) && k < |x.parts|
    requires Registered(x, s, k, w) && |w.loaded| == k && Advances(x, s, k, w, next)
    ensures Registered(x, s, k + 1, next) && forall j :: 0 <= j < k ==> w.loaded[j] != x.created[k]
  {
    forall j | 0 <= j < k
      ensures x.Prefix(j) in next.state.modules && next.state.modules[x.Prefix(j)] == next.loaded[j]
      ensures next.loaded[j] == w.loaded[j] != x.created[k]
    {
      assert next.loaded[j] == next.loaded[..k][j];
      assert |x.Prefix(j)| != |x.Prefix(k)|;
      assert SameAt(next.state.modules, w.state.modules, x.Prefix(j));
    }
  }

  lemma AdvanceBinds(x: Call, s: State, k: nat, w: Walk, next: Walk)
    requires x.Proper() && k < |x.parts| && Bound(x, k, w) && Advances(x, s, k, w, next)
    requires forall j :: 0 <= j < k ==> w.loaded[j] != x.created[k]
    ensures Bound(x, k + 1, next)
  {
    forall j | 0 <= j < k ensures next.loaded[j] == w.loaded[j] {
      assert next.loaded[j] == next.loaded[..k][j];
    }
    forall j | 0 < j < k
      ensures (next.loaded[j - 1], x.parts[j]) in next.state.attributes
      ensures next.state.attributes[(next.loaded[j - 1], x.parts[j])] == next.loaded[j]
    {
      assert SameAt(next.state.attributes, w.state.attributes, (w.loaded[j - 1], x.parts[j]));
    }
  }

  lemma AdvanceKeeps(x: Call, s: State, k: nat, w: Walk, next: Walk)
    requires x.Proper() && k < |x.parts| && |w.loaded| == k && Advances(x, s, k, w, next)
    requires KeepsAttributes(x, s.attributes, w.state.attributes)
    ensures KeepsAttributes(x, s.attributes, next.state.attributes)
  {
    forall key: Key | key.0 !in x.created && key in s.attributes
      ensures SameAt(next.state.attributes, s.attributes, key)
    {
      assert SameAt(w.state.attributes, s.attributes, key);
      assert SameAt(next.state.attributes, w.state.attributes, key);
    }
  }

  lemma StepBinds(x: Call, s: State, k: nat, w: Walk, next: Walk)
    requires x.Proper() && x.Contained() && x.Fresh(s) && k < |x.parts| && !w.failed
    requires TracksModules(x, s.modules, k, w) && Registered(x, s, k, w) && Bound(x, k, w)
    requires KeepsAttributes(x, s.attributes, w.state.attributes)
    requires next == Step(x, Preexisting(x, s.modules), k, w) && !next.failed
    ensures Registered(x, s, k + 1, next) && Bound(x, k + 1, next) && TracksModules(x, s.modules, k + 1, next)
    ensures KeepsAttributes(x, s.attributes, next.state.attributes)
  {
    assert !Recorded(w.modules, x.Prefix(k));
    StepTracksModules(x, s.modules, k, w);
    StepAdvances(x, s, k, w);
    AdvanceRegisters(x, s, k, w, next);
    AdvanceBinds(x, s, k, w, next);
    AdvanceKeeps(x, s, k, w, next);
  }

  lemma {:induction false} StepsBind(x: Call, s: State, k: nat, w: Walk)
    requires x.Proper() && x.Contained() && x.Fresh(s) && k <= |x.parts| && !w.failed
    requires TracksModules(x, s.modules, k, w) && Registered(x, s, k, w) && Bound(x, k, w)
    requires KeepsAttributes(x, s.attributes, w.state.attributes)
    ensures var end := Steps(x, Preexisting(x, s.modules), k, w);
            !end.failed ==>
              && Registered(x, s, |x.parts|, end) && Bound(x, |x.parts|, end)
              && TracksModules(x, s.modules, |x.parts|, end) && KeepsAttributes(x, s.attributes, end.state.attributes)
    decreases |x.parts| - k
  {
    hide Step;
    if k < |x.parts| {
      var next := Step(x, Preexisting(x, s.modules), k, w);
      if !next.failed {
        StepBinds(x, s, k, w, next);
        StepsBind(x, s, k + 1, next);
      }
    }
  }

  /** A successful call leaves every prefix of the name registered and bound in the namespace of
      its parent, returns the module of the whole name, and changes no entry and no attribute
      that was there before. */
  lemma SuccessBinds(x: Call, s: State)
    requires x.Proper() && x.Contained() && x.Fresh(s) && Resolve(x, s).1.Some?
    ensures var (after, result) := Resolve(x, s);
            && (forall j :: 0 <= j < |x.parts| ==> x.Prefix(j) in after.modules)
            && x.parts in after.modules && after.modules[x.parts] == result.value
            && (forall j :: 0 < j < |x.parts| ==>
                 && (after.modules[x.Prefix(j - 1)], x.parts[j]) in after.attributes
                 && after.attributes[(after.modules[x.Prefix(j - 1)], x.parts[j])] == after.modules[x.Prefix(j)])
            && (forall name :: name in s.modules ==> SameAt(after.modules, s.modules, name))
            && (forall key: Key :: key.0 !in x.created && key in s.attributes ==>
                 SameAt(after.attributes, s.attributes, key))
  {
    var w := Walk(s, [], [], [], !FirstPass(x, s.modules));
    StepsBind(x, s, 0, w);
    var end := Loading(x, s);
    assert x.Prefix(|x.parts| - 1) == x.parts;
    forall name | name in s.modules ensures SameAt(end.state.modules, s.modules, name) {
      assert !Recorded(end.modules, name);
    }
  }

  // ---- what is loaded ----

  /** The plain loading of the first k elements, without checks and without an undo log: what is
      not in the table is made and its code run, and each module is bound in its parent unless the
      name is taken there. */
  function Plain(x: Call, s: State, k: nat): State
    requires x.Proper() && k <= |x.parts|
    decreases k, 0
  {
    if k == 0 then s
    else
      var t := PlainCode(x, s, k - 1);
      if k == 1 then t
      else
        var key := (PlainModule(x, s, k - 2), x.parts[k - 1]);
        if key in t.attributes then t else State(t.modules, t.attributes[key := PlainModule(x, s, k - 1)])
  }

  /** The same after the code of element k, before it is bound. */
  function PlainCode(x: Call, s: State, k: nat): State
    requires x.Proper() && k < |x.parts|
    decreases k, 1
  {
    var t := Plain(x, s, k);
    if x.Prefix(k) in t.modules then t
    else x.code(k, State(t.modules[x.Prefix(k) := x.created[k]], t.attributes))
  }

  /** The module of element k. */
  function PlainModule(x: Call, s: State, k: nat): Mod
    requires x.Proper() && k < |x.parts|
    decreases k, 1
  {
    var t := Plain(x, s, k);
    if x.Prefix(k) in t.modules then t.modules[x.Prefix(k)] else x.created[k]
  }

  /** Element k passes: it is still what it was at the start, if it was there; it is valid; its code,
      if it is run, does not raise; it is then still in the table; and its name in its parent is
      free or already its own. */
  predicate Passes(x: Call, s: State, k: nat)
    requires x.Proper() && k < |x.parts|
  {
    var name, m, after := x.Prefix(k), PlainModule(x, s, k), PlainCode(x, s, k);
    && (name in s.modules ==> name in Plain(x, s, k).modules && m == s.modules[name])
    && x.valid(AtItsTurn, k, m)
    && (name !in Plain(x, s, k).modules ==> !x.raises(k))
    && name in after.modules && after.modules[name] == m
    && (k > 0 ==>
         var key := (PlainModule(x, s, k - 1), x.parts[k]);
         key in after.attributes ==> after.attributes[key] == m)
  }

  /** The chain was found, all modules of it that are there already are valid, and every element
      passes at its turn. */
  predicate Accepts(x: Call, s: State)
    requires x.Proper()
  {
    && x.found
    && (forall k :: 0 <= k < |x.parts| && x.Prefix(k) in s.modules ==>
         x.valid(BeforeLoading, k, s.modules[x.Prefix(k)]))
    && forall k :: 0 <= k < |x.parts| ==> Passes(x, s, k)
  }

  /** The walk has loaded the first k elements as the plain loading does. */
  predicate Follows(x: Call, s: State, k: nat, w: Walk)
    requires x.Proper() && k <= |x.parts|
  {
    && !w.failed && w.state == Plain(x, s, k) && |w.loaded| == k
    && forall j :: 0 <= j < k ==> w.loaded[j] == PlainModule(x, s, j)
  }

  lemma PlainNext(x: Call, s: State, k: nat)
    requires x.Proper() && k < |x.parts|
    ensures Plain(x, s, 0) == s
    ensures Plain(x, s, k + 1) ==
            var t, m := PlainCode(x, s, k), PlainModule(x, s, k);
            if k == 0 then t
            else
              var key := (PlainModule(x, s, k - 1), x.parts[k]);
              if key in t.attributes then t else State(t.modules, t.attributes[key := m])
  {
    hide PlainCode, PlainModule;
  }

  /** What a step makes of what it acquired. */
  lemma StepOfAcquired(x: Call, before: Table, k: nat, w: Walk)
    requires x.Proper() && k < |x.parts| && |w.loaded| == k
    ensures var (a, next, name) := (Acquire(x, before, k, w.state), Step(x, before, k, w), x.Prefix(k));
            var stays := a.ok && name in a.state.modules && a.state.modules[name] == a.module_;
            if k == 0 then next.failed == !stays && (stays ==> next.state == a.state && next.loaded == [a.module_])
            else
              var key := (w.loaded[k - 1], x.parts[k]);
              var free := key !in a.state.attributes;
              && next.failed == !(stays && (free || a.state.attributes[key] == a.module_))
              && (!next.failed ==> next.loaded == w.loaded + [a.module_])
              && (!next.failed ==>
                   next.state == if free then State(a.state.modules, a.state.attributes[key := a.module_]) else a.state)
  {
    hide Acquire;
  }

  lemma PreexistingAt(x: Call, m: Table, k: nat)
    requires x.Proper() && k < |x.parts|
    ensures x.Prefix(k) in Preexisting(x, m) <==> x.Prefix(k) in m
    ensures x.Prefix(k) in m ==> Preexisting(x, m)[x.Prefix(k)] == m[x.Prefix(k)]
  {
  }

  lemma StepPasses(x: Call, s: State, k: nat, w: Walk)
    requires x.Proper() && k < |x.parts| && w.state == Plain(x, s, k) && |w.loaded| == k && !w.failed
    requires k > 0 ==> w.loaded[k - 1] == PlainModule(x, s, k - 1)
    ensures var next := Step(x, Preexisting(x, s.modules), k, w);
            && (next.failed <==> !Passes(x, s, k))
            && (!next.failed ==>
                 next.state == Plain(x, s, k + 1) && next.loaded == w.loaded + [PlainModule(x, s, k)])
  {
    hide Preexisting, Acquire, Plain, PlainCode, PlainModule, Step;
    PreexistingAt(x, s.modules, k);
    AcquireFollows(x, s, Preexisting(x, s.modules), k, w.state);
    StepOfAcquired(x, Preexisting(x, s.modules), k, w);
    PlainNext(x, s, k);
  }

  lemma StepFollows(x: Call, s: State, k: nat, w: Walk)
    requires x.Proper() && k < |x.parts| && Follows(x, s, k, w)
    ensures var next := Step(x, Preexisting(x, s.modules), k, w);
            && (next.failed <==> !Passes(x, s, k))
            && (!next.failed ==> Follows(x, s, k + 1, next))
  {
    hide Preexisting, Plain, PlainCode, PlainModule, Step, Passes;
    StepPasses(x, s, k, w);
  }

  lemma AcquireFollows(x: Call, s: State, before: Table, k: nat, t: State)
    requires x.Proper() && k < |x.parts| && t == Plain(x, s, k)
    requires x.Prefix(k) in before <==> x.Prefix(k) in s.modules
    requires x.Prefix(k) in before ==> before[x.Prefix(k)] == s.modules[x.Prefix(k)]
    ensures var (a, name, m) := (Acquire(x, before, k, t), x.Prefix(k), PlainModule(x, s, k));
            && (a.ok <==>
                 && (name in s.modules ==> name in t.modules && m == s.modules[name]) && x.valid(AtItsTurn, k, m)
                 && (name !in t.modules ==> !x.raises(k)))
            && (a.ok ==> a.module_ == m && a.state == PlainCode(x, s, k))
  {
    hide Plain;
  }

  lemma {:induction false} StepsFollow(x: Call, s: State, k: nat, w: Walk)
    requires x.Proper() && k <= |x.parts| && Follows(x, s, k, w)
    ensures var end := Steps(x, Preexisting(x, s.modules), k, w);
            && (end.failed <==> exists j :: k <= j < |x.parts| && !Passes(x, s, j))
            && (!end.failed ==> Follows(x, s, |x.parts|, end))
    decreases |x.parts| - k
  {
    hide Step, Passes, Plain, PlainModule, Preexisting;
    if k < |x.parts| {
      StepFollows(x, s, k, w);
      var next := Step(x, Preexisting(x, s.modules), k, w);
      if !next.failed { StepsFollow(x, s, k + 1, next); }
    }
  }

  lemma LoadingFollows(x: Call, s: State)
    requires x.Proper()
    ensures Loading(x, s).failed <==>
              !FirstPass(x, s.modules) || exists j :: 0 <= j < |x.parts| && !Passes(x, s, j)
    ensures !Loading(x, s).failed ==> Follows(x, s, |x.parts|, Loading(x, s))
  {
    var w := Walk(s, [], [], [], !FirstPass(x, s.modules));
    PlainNext(x, s, 0);
    hide Passes, Plain, PlainModule, Step, Preexisting, FirstPass;
    if !w.failed { StepsFollow(x, s, 0, w); }
  }

  /** For any code whatever: a call succeeds exactly if everything is accepted, and then it has
      loaded what the plain loading loads and returns the last module of the chain. */
  lemma ResolveIsPlainLoading(x: Call, s: State)
    requires x.Proper()
    ensures Resolve(x, s).1.Some? <==> Accepts(x, s)
    ensures Accepts(x, s) ==>
              Resolve(x, s) == (Plain(x, s, |x.parts|), Some(PlainModule(x, s, |x.parts| - 1)))
  {
    hide Passes, Plain, PlainCode, PlainModule, Loading, Cleanup;
    LoadingFollows(x, s);
  }

  // ---- the resolver ----

  class Interpreter {
    var modules: Table
    var attributes: Attributes

    ghost function Now(): State
      reads this
    {
      State(modules, attributes)
    }

    method CheckPresent(x: Call) returns (preexisting: Table, ok: bool)
      requires x.Proper()
      ensures ok <==> FirstPass(x, modules)
      ensures ok ==> preexisting == Preexisting(x, modules)
    {
      preexisting := map[];
      assert preexisting == Present(x, modules, 0);
      hide Present;
      if !x.found { return preexisting, false; }
      for k := 0 to |x.parts|
        invariant forall j :: 0 <= j < k && x.Prefix(j) in modules ==> x.valid(BeforeLoading, j, modules[x.Prefix(j)])
        invariant preexisting == Present(x, modules, k)
      {
        PresentNext(x, modules, k);
        var name := x.Prefix(k);
        if name in modules {
          if !x.valid(BeforeLoading, k, modules[name]) { return preexisting, false; }
          preexisting := preexisting[name := modules[name]];
        }
      }
      return preexisting, true;
    }

    method UndoAll(moduleUndos: seq<ModuleUndo>, attributeUndos: seq<AttributeUndo>)
      modifies this
      ensures modules == UndoModules(old(modules), moduleUndos)
      ensures attributes == UndoAttributes(old(attributes), attributeUndos)
    {
      assert attributeUndos[..|attributeUndos|] == attributeUndos && moduleUndos[..|moduleUndos|] == moduleUndos;
      var n: nat := |attributeUndos|;
      while n > 0
        invariant n <= |attributeUndos| && modules == old(modules)
        invariant UndoAttributes(attributes, attributeUndos[..n]) == UndoAttributes(old(attributes), attributeUndos)
      {
        n := n - 1;
        var undo := attributeUndos[n];
        assert attributeUndos[..n + 1][..n] == attributeUndos[..n];
        if undo.previous.Some? {
          attributes := attributes[undo.key := undo.previous.value];
        } else {
          attributes := attributes - {undo.key};
        }
      }
      n := |moduleUndos|;
      while n > 0
        invariant n <= |moduleUndos| && attributes == UndoAttributes(old(attributes), attributeUndos)
        invariant UndoModules(modules, moduleUndos[..n]) == UndoModules(old(modules), moduleUndos)
      {
        n := n - 1;
        var undo := moduleUndos[n];
        assert moduleUndos[..n + 1][..n] == moduleUndos[..n];
        if undo.name in modules && undo.Matches(modules[undo.name]) { modules := modules - {undo.name}; }
      }
    }

    method LoadAll(x: Call, preexisting: Table)
      returns (moduleUndos: seq<ModuleUndo>, attributeUndos: seq<AttributeUndo>, loaded: seq<Mod>, ok: bool)
      requires x.Proper()
      modifies this
      ensures Walk(Now(), moduleUndos, attributeUndos, loaded, !ok) ==
              Steps(x, preexisting, 0, Walk(old(Now()), [], [], [], false))
      ensures ok ==> |loaded| == |x.parts|
    {
      hide Step;
      moduleUndos, attributeUndos, loaded, ok := [], [], [], true;
      var k := 0;
      while ok && k < |x.parts|
        invariant k <= |x.parts| && k <= |loaded| && (ok ==> |loaded| == k)
        invariant Steps(x, preexisting, k, Walk(Now(), moduleUndos, attributeUndos, loaded, !ok)) ==
                  Steps(x, preexisting, 0, Walk(old(Now()), [], [], [], false))
        decreases |x.parts| - k, ok
      {
        moduleUndos, attributeUndos, loaded, ok := LoadOne(x, preexisting, k, moduleUndos, attributeUndos, loaded);
        if ok { k := k + 1; }
      }
    }

    method ResolveModule(x: Call) returns (result: Option<Mod>)
      requires x.Proper()
      modifies this
      ensures (Now(), result) == Resolve(x, old(Now()))
    {
      var preexisting, ok := CheckPresent(x);
      if !ok { return None; }
      var moduleUndos, attributeUndos, loaded, complete := LoadAll(x, preexisting);
      assert Loading(x, old(Now())) == Walk(Now(), moduleUndos, attributeUndos, loaded, !complete);
      if !complete {
        UndoAll(moduleUndos, attributeUndos);
        return None;
      }
      return Some(loaded[|loaded| - 1]);
    }

    method LoadOne(
      x: Call, preexisting: Table, k: nat, moduleUndos: seq<ModuleUndo>, attributeUndos: seq<AttributeUndo>,
      loaded: seq<Mod>)
      returns (modules': seq<ModuleUndo>, attributes': seq<AttributeUndo>, loaded': seq<Mod>, ok: bool)
      requires x.Proper() && k < |x.parts| && |loaded| == k
      modifies this
      ensures Walk(Now(), modules', attributes', loaded', !ok) ==
              Step(x, preexisting, k, Walk(old(Now()), moduleUndos, attributeUndos, loaded, false))
      ensures |loaded'| >= k && (ok ==> |loaded'| == k + 1)
    {
      modules', attributes', loaded', ok := moduleUndos, attributeUndos, loaded, false;
      var name := x.Prefix(k);
      if k > 0 { attributes' := attributes' + [Record(attributes, (loaded[k - 1], x.parts[k]))]; }
      var module_;
      var isNew := false;
      if name in preexisting {
        module_ := preexisting[name];
        if name !in modules || modules[name] != module_ || !x.valid(AtItsTurn, k, module_) { return; }
      } else if name in modules {
        module_ := modules[name];
        if !x.valid(AtItsTurn, k, module_) { return; }
      } else {
        module_ := x.created[k];
        modules := modules[name := module_];
        isNew := true;
        modules' := modules' + [ModuleUndo(name, module_, None)];
        var executed := x.code(k, State(modules, attributes));
        modules, attributes := executed.modules, executed.attributes;
        if x.raises(k) || !x.valid(AtItsTurn, k, module_) { return; }
      }
      if name !in modules || modules[name] != module_ {
        if isNew && name in modules {
          modules' := moduleUndos + [ModuleUndo(name, module_, Some(modules[name]))];
        }
        return;
      }
      loaded' := loaded' + [module_];
      if k > 0 {
        var key := (loaded[k - 1], x.parts[k]);
        if key in attributes {
          if attributes[key] != module_ { return; }
        } else {
          attributes := attributes[key := module_];
        }
      }
      ok := true;
    }
  }
}
