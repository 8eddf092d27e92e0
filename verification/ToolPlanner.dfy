/** The deterministic capability router (core/tool_planner.py) and the catalogue it plans over
    (core/tool_catalog.py:163-250). */
module ToolPlanner {
  import opened Options
  import opened Strings
  import PermissionGate
  import opened PlanExecution

  // ---- strings ----

  /** Python's string order: by code point. */
  predicate Before(a: string, b: string) {
    if b == "" then false
    else if a == "" then true
    else a[0] < b[0] || (a[0] == b[0] && Before(a[1..], b[1..]))
  }

  /** After k common characters, a ends or has the smaller one. */
  ghost predicate BranchesAt(a: string, b: string, k: int) {
    0 <= k <= |a| && k < |b| && a[..k] == b[..k] && (k == |a| || a[k] < b[k])
  }

  lemma {:induction false} BeforeIsCodePointOrder(a: string, b: string)
    ensures Before(a, b) <==> exists k :: BranchesAt(a, b, k)
    decreases |a|
  {
    if b != "" {
      forall k | BranchesAt(a, b, k) && k > 0 ensures a[0] == b[0] {
        assert a[..k][0] == b[..k][0];
      }
      if a == "" || a[0] < b[0] {
        assert BranchesAt(a, b, 0);
      } else if a[0] == b[0] {
        BeforeIsCodePointOrder(a[1..], b[1..]);
        if k :| BranchesAt(a[1..], b[1..], k) {
          assert a[..k + 1] == [a[0]] + a[1..][..k] && b[..k + 1] == [b[0]] + b[1..][..k];
          assert BranchesAt(a, b, k + 1);
        }
        if k :| BranchesAt(a, b, k) {
          assert k > 0 && a[1..][..k - 1] == a[..k][1..] && b[1..][..k - 1] == b[..k][1..];
          assert BranchesAt(a[1..], b[1..], k - 1);
        }
      }
    }
  }

  lemma {:induction false} BeforeIsTotal(a: string, b: string)
    ensures (if Before(a, b) then 1 else 0) + (if Before(b, a) then 1 else 0) + (if a == b then 1 else 0) == 1
    decreases |a|
  {
    if a != "" && b != "" {
      BeforeIsTotal(a[1..], b[1..]);
      assert a == [a[0]] + a[1..] && b == [b[0]] + b[1..];
    }
  }

  lemma {:induction false} BeforeIsTransitive(a: string, b: string, c: string)
    requires Before(a, b) && Before(b, c)
    ensures Before(a, c)
    decreases |a|
  {
    if a != "" && a[0] == b[0] && b[0] == c[0] { BeforeIsTransitive(a[1..], b[1..], c[1..]); }
  }

  /** `str.lower` and `str.upper`: what they do to other than ASCII text is left open. */
  datatype Casing = Casing(lower: string -> string, upper: string -> string) {
    ghost predicate LikePython() {
      && (forall t :: Ascii(t) ==> lower(t) == LowerAscii(t))
      && (forall t :: Ascii(t) ==> upper(t) == UpperAscii(t))
      && (forall t :: t != "" ==> upper(t) != "")
    }
  }

  // ---- catalogue ----

  /** The routing metadata of one tool; a missing entry is blank or empty. */
  datatype Metadata = Metadata(permission: string, capabilities: seq<string>)

  datatype Descriptor = Descriptor(name: string, permission: string, capabilities: seq<string>)

  /** The capabilities that are not blank, stripped and in lower case. */
  function Provided(capabilities: seq<string>, x: Casing): seq<string> {
    if capabilities == [] then []
    else
      var last := Strip(capabilities[|capabilities| - 1]);
      Provided(capabilities[..|capabilities| - 1], x) + if last == "" then [] else [x.lower(last)]
  }

  function Describe(name: string, m: Metadata, x: Casing): Descriptor {
    Descriptor(Strip(name), x.upper(Strip(m.permission)), Provided(m.capabilities, x))
  }

  /** The capabilities in their order: blank ones are left out, the others stripped and lower-cased. */
  lemma ProvidedInOrder(capabilities: seq<string>, raw: string, x: Casing)
    ensures Provided(capabilities + [raw], x) ==
            Provided(capabilities, x) + if |Strip(raw)| == 0 then [] else [x.lower(Strip(raw))]
    ensures Provided([], x) == []
  {
    assert (capabilities + [raw])[..|capabilities|] == capabilities;
  }

  predicate Gives(raw: string, c: string, x: Casing) { Strip(raw) != "" && x.lower(Strip(raw)) == c }

  lemma {:induction false} ProvidedIn(capabilities: seq<string>, c: string, x: Casing)
    ensures c in Provided(capabilities, x) <==> exists raw :: raw in capabilities && Gives(raw, c, x)
    decreases |capabilities|
  {
    hide Strip;
    if capabilities != [] {
      var n := |capabilities| - 1;
      ProvidedIn(capabilities[..n], c, x);
      assert capabilities == capabilities[..n] + [capabilities[n]];
      assert capabilities[n] in capabilities;
    }
  }

  lemma {:induction false} NothingProvided(capabilities: seq<string>, x: Casing)
    ensures Provided(capabilities, x) == [] <==> forall raw :: raw in capabilities ==> Strip(raw) == ""
    decreases |capabilities|
  {
    hide Strip;
    if capabilities != [] {
      var n := |capabilities| - 1;
      NothingProvided(capabilities[..n], x);
      assert capabilities == capabilities[..n] + [capabilities[n]];
      assert capabilities[n] in capabilities;
    }
  }

  datatype CatalogError =
    | EmptyName | NotRegistered(name: string) | NoPermission(name: string) | NoCapability(name: string)
    | NothingConfigured

  datatype Catalog = Catalog(tools: seq<Descriptor>) | CatalogFailed(error: CatalogError)

  /** What is wrong with one entry. */
  function EntryError(registered: set<string>, name: string, m: Metadata, x: Casing): Option<CatalogError> {
    var tool := Describe(name, m, x);
    if tool.name == "" then Some(EmptyName)
    else if tool.name !in registered then Some(NotRegistered(tool.name))
    else if tool.permission == "" then Some(NoPermission(tool.name))
    else if tool.capabilities == [] then Some(NoCapability(tool.name))
    else None
  }

  /** The reason an entry is refused for, and what it describes otherwise. */
  lemma EntryOutcome(registered: set<string>, name: string, m: Metadata, x: Casing)
    ensures var tool, blank := Strip(name), forall raw :: raw in m.capabilities ==> Strip(raw) == "";
            EntryError(registered, name, m, x) ==
            if tool !in registered then Some(if tool == "" then EmptyName else NotRegistered(tool))
            else if tool == "" then Some(EmptyName)
            else if x.upper(Strip(m.permission)) == "" then Some(NoPermission(tool))
            else if blank then Some(NoCapability(tool))
            else None
    ensures Describe(name, m, x).name == Strip(name) && Describe(name, m, x).permission == x.upper(Strip(m.permission))
    ensures Describe(name, m, x).capabilities == Provided(m.capabilities, x)
  {
    NothingProvided(m.capabilities, x);
    hide Strip, Provided;
  }

  /** Nothing is configured, or the first error is that of entry i. */
  predicate FirstError(
    registered: set<string>, configured: seq<string>, config: map<string, Metadata>, x: Casing, i: nat)
    requires forall name :: name in configured ==> name in config
  {
    && i < |configured| && EntryError(registered, configured[i], config[configured[i]], x).Some?
    && forall j :: 0 <= j < i ==> EntryError(registered, configured[j], config[configured[j]], x).None?
  }

  predicate CatalogFails(registered: set<string>, configured: seq<string>, config: map<string, Metadata>, x: Casing)
    requires forall name :: name in configured ==> name in config
  {
    configured == [] || exists name :: name in configured && EntryError(registered, name, config[name], x).Some?
  }

  /** `configured` are the configured names, sorted; `registered` are the names of the registry,
      stripped. */
  method BuildToolCatalog(registered: set<string>, configured: seq<string>, config: map<string, Metadata>, x: Casing)
    returns (catalog: Catalog)
    requires forall name :: name in configured ==> name in config
    ensures catalog.CatalogFailed? <==> CatalogFails(registered, configured, config, x)
    ensures catalog == CatalogFailed(NothingConfigured) <==> configured == []
    ensures catalog.CatalogFailed? && configured != [] ==>
              exists i: nat :: FirstError(registered, configured, config, x, i)
                && Some(catalog.error) == EntryError(registered, configured[i], config[configured[i]], x)
    ensures catalog.Catalog? ==> catalog.tools == Described(configured, config, x)
  {
    hide Describe;
    var tools: seq<Descriptor> := [];
    for i := 0 to |configured|
      invariant forall j :: 0 <= j < i ==> EntryError(registered, configured[j], config[configured[j]], x).None?
      invariant tools == Described(configured[..i], config, x)
    {
      var tool := Describe(configured[i], config[configured[i]], x);
      var error := None;
      if tool.name == "" {
        error := Some(EmptyName);
      } else if tool.name !in registered {
        error := Some(NotRegistered(tool.name));
      } else if tool.permission == "" {
        error := Some(NoPermission(tool.name));
      } else if tool.capabilities == [] {
        error := Some(NoCapability(tool.name));
      }
      if error.Some? {
        assert FirstError(registered, configured, config, x, i);
        return CatalogFailed(error.value);
      }
      tools := tools + [tool];
    }
    assert configured[..|configured|] == configured;
    if configured == [] { return CatalogFailed(NothingConfigured); }
    return Catalog(tools);
  }

  function Described(configured: seq<string>, config: map<string, Metadata>, x: Casing): seq<Descriptor>
    requires forall name :: name in configured ==> name in config
  {
    seq(|configured|, i requires 0 <= i < |configured| => Describe(configured[i], config[configured[i]], x))
  }

  // ---- capability index ----

  function Insert(t: Descriptor, sorted: seq<Descriptor>): seq<Descriptor> {
    if sorted == [] then [t]
    else if Before(t.name, sorted[0].name) then [t] + sorted
    else [sorted[0]] + Insert(t, sorted[1..])
  }

  /** `sorted(tools, key=name)`, which is stable. */
  function SortByName(tools: seq<Descriptor>): seq<Descriptor> {
    if tools == [] then [] else Insert(tools[|tools| - 1], SortByName(tools[..|tools| - 1]))
  }

  ghost predicate Ascending(tools: seq<Descriptor>) {
    forall i, j :: 0 <= i < j < |tools| ==> !Before(tools[j].name, tools[i].name)
  }

  lemma {:induction false} InsertAdds(t: Descriptor, sorted: seq<Descriptor>)
    ensures multiset(Insert(t, sorted)) == multiset(sorted) + multiset{t}
    ensures forall u :: u in Insert(t, sorted) ==> u == t || u in sorted
    decreases |sorted|
  {
    hide Before;
    if sorted != [] {
      assert sorted == [sorted[0]] + sorted[1..];
      InsertAdds(t, sorted[1..]);
    }
  }

  lemma AscendingCons(first: Descriptor, rest: seq<Descriptor>)
    requires Ascending(rest) && forall u :: u in rest ==> !Before(u.name, first.name)
    ensures Ascending([first] + rest)
  {
    hide Before;
    forall i, j | 0 <= i < j < |[first] + rest| ensures !Before(([first] + rest)[j].name, ([first] + rest)[i].name) {
      assert ([first] + rest)[j] == rest[j - 1] && rest[j - 1] in rest;
    }
  }

  lemma {:induction false} InsertAscends(t: Descriptor, sorted: seq<Descriptor>)
    requires Ascending(sorted)
    ensures Ascending(Insert(t, sorted))
    decreases |sorted|
  {
    hide Before;
    if sorted != [] {
      var first, rest := sorted[0], sorted[1..];
      assert forall u :: u in rest ==> !Before(u.name, first.name);
      if Before(t.name, first.name) {
        forall u | u in sorted ensures !Before(u.name, t.name) {
          if Before(u.name, t.name) {
            BeforeIsTransitive(u.name, t.name, first.name);
            BeforeIsTotal(u.name, first.name);
          }
        }
        AscendingCons(t, sorted);
      } else {
        InsertAscends(t, rest);
        InsertAdds(t, rest);
        AscendingCons(first, Insert(t, rest));
      }
    }
  }

  lemma {:induction false} SortByNameSorts(tools: seq<Descriptor>)
    ensures Ascending(SortByName(tools)) && multiset(SortByName(tools)) == multiset(tools)
    decreases |tools|
  {
    hide Insert, Before;
    if tools != [] {
      var n := |tools| - 1;
      var rest := SortByName(tools[..n]);
      SortByNameSorts(tools[..n]);
      InsertAscends(tools[n], rest);
      InsertAdds(tools[n], rest);
      assert SortByName(tools) == Insert(tools[n], rest);
      assert multiset(tools) == multiset(tools[..n]) + multiset{tools[n]} by {
        assert tools == tools[..n] + [tools[n]];
      }
    }
  }

  datatype Index = Index(providers: map<string, Descriptor>) | EmptyCatalog | DuplicateTool(name: string)

  /** The first provider of each capability in the given order. */
  function FirstProviders(tools: seq<Descriptor>): map<string, Descriptor> {
    if tools == [] then map[]
    else
      var last := tools[|tools| - 1];
      (map c | c in last.capabilities :: last) + FirstProviders(tools[..|tools| - 1])
  }

  /** `setdefault` for each capability of one tool. */
  method OfferCapabilities(tool: Descriptor, before: map<string, Descriptor>)
    returns (providers: map<string, Descriptor>)
    ensures providers == (map c | c in tool.capabilities :: tool) + before
  {
    providers := before;
    for k := 0 to |tool.capabilities|
      invariant forall c :: c in providers <==> c in before || c in tool.capabilities[..k]
      invariant forall c :: c in providers ==> providers[c] == if c in before then before[c] else tool
    {
      assert tool.capabilities[..k + 1] == tool.capabilities[..k] + [tool.capabilities[k]];
      var capability := tool.capabilities[k];
      if capability !in providers { providers := providers[capability := tool]; }
    }
    assert tool.capabilities[..|tool.capabilities|] == tool.capabilities;
  }

  method BuildCapabilityIndex(tools: seq<Descriptor>) returns (index: Index)
    ensures index.EmptyCatalog? <==> tools == []
    ensures index.Index? ==> index.providers == FirstProviders(SortByName(tools))
    ensures index.Index? <==> tools != [] && DistinctNames(SortByName(tools))
    ensures index.DuplicateTool? ==> Repeats(SortByName(tools), index.name)
  {
    if tools == [] { return EmptyCatalog; }
    index := IndexSorted(SortByName(tools));
  }

  method IndexSorted(sorted: seq<Descriptor>) returns (index: Index)
    ensures index.Index? ==> index.providers == FirstProviders(sorted)
    ensures index.Index? <==> DistinctNames(sorted)
    ensures !index.EmptyCatalog?
    ensures index.DuplicateTool? ==> Repeats(sorted, index.name)
  {
    var names: set<string> := {};
    var providers: map<string, Descriptor> := map[];
    for i := 0 to |sorted|
      invariant forall name :: name in names <==> exists j :: 0 <= j < i && sorted[j].name == name
      invariant forall j, k :: 0 <= j < k < i ==> sorted[j].name != sorted[k].name
      invariant providers == FirstProviders(sorted[..i])
    {
      var tool := sorted[i];
      assert sorted[..i + 1][..i] == sorted[..i];
      if tool.name in names {
        assert Repeats(sorted, tool.name);
        return DuplicateTool(tool.name);
      }
      forall j | 0 <= j < i ensures sorted[j].name != tool.name { assert sorted[j].name in names; }
      names := names + {tool.name};
      providers := OfferCapabilities(tool, providers);
    }
    assert sorted[..|sorted|] == sorted;
    return Index(providers);
  }

  /** The first name, in the order of the tools, that an earlier tool has. */
  ghost predicate Repeats(tools: seq<Descriptor>, name: string) {
    exists i, j :: 0 <= i < j < |tools| && tools[i].name == tools[j].name == name && DistinctNames(tools[..j])
  }

  ghost predicate DistinctNames(tools: seq<Descriptor>) {
    forall i, j :: 0 <= i < j < |tools| ==> tools[i].name != tools[j].name
  }

  /** The provider of a capability is the one that comes first by name. */
  ghost predicate LeastProvider(tools: seq<Descriptor>, capability: string, t: Descriptor) {
    && t in tools && capability in t.capabilities
    && forall u :: u in tools && capability in u.capabilities ==> u == t || Before(t.name, u.name)
  }

  lemma {:induction false} FirstProvidersAreLeast(tools: seq<Descriptor>)
    requires Ascending(tools) && DistinctNames(tools)
    ensures forall c :: c in FirstProviders(tools) <==> exists t :: t in tools && c in t.capabilities
    ensures forall c :: c in FirstProviders(tools) ==> LeastProvider(tools, c, FirstProviders(tools)[c])
    decreases |tools|
  {
    hide Before;
    if tools != [] {
      var n := |tools| - 1;
      var last := tools[n];
      FirstProvidersAreLeast(tools[..n]);
      assert forall t :: t in tools <==> t in tools[..n] || t == last by { assert tools == tools[..n] + [last]; }
      forall t | t in tools[..n] ensures Before(t.name, last.name) {
        var i :| 0 <= i < n && tools[..n][i] == t;
        assert tools[i] == t;
        BeforeIsTotal(t.name, last.name);
      }
    }
  }

  lemma LeastProviderIsUnique(tools: seq<Descriptor>, capability: string, t: Descriptor, u: Descriptor)
    requires LeastProvider(tools, capability, t) && LeastProvider(tools, capability, u)
    ensures t == u
  {
    if t != u { BeforeIsTotal(t.name, u.name); }
  }

  lemma IndexOfSorted(tools: seq<Descriptor>)
    requires DistinctNames(tools)
    ensures DistinctNames(SortByName(tools))
    ensures var index := FirstProviders(SortByName(tools));
            && (forall c :: c in index <==> exists t :: t in tools && c in t.capabilities)
            && (forall c :: c in index ==> LeastProvider(tools, c, index[c]))
  {
    var sorted := SortByName(tools);
    SortByNameSorts(tools);
    assert forall t :: t in sorted <==> t in tools by {
      assert forall t :: t in sorted <==> t in multiset(sorted);
      assert forall t :: t in tools <==> t in multiset(tools);
    }
    DistinctByMultiset(tools, sorted);
    FirstProvidersAreLeast(sorted);
    forall c | c in FirstProviders(sorted) ensures LeastProvider(tools, c, FirstProviders(sorted)[c]) {
      assert LeastProvider(sorted, c, FirstProviders(sorted)[c]);
    }
  }

  lemma DistinctByMultiset(a: seq<Descriptor>, b: seq<Descriptor>)
    requires DistinctNames(a) && multiset(a) == multiset(b)
    ensures DistinctNames(b)
  {
    forall i, j | 0 <= i < j < |b| ensures b[i].name != b[j].name {
      if b[i].name == b[j].name {
        assert b[i] in multiset(a) && b[j] in multiset(a);
        var x :| 0 <= x < |a| && a[x] == b[i];
        var y :| 0 <= y < |a| && a[y] == b[j];
        assert x == y;
        assert b == b[..i] + [b[i]] + b[i + 1..j] + [b[j]] + b[j + 1..];
        assert multiset(b)[b[i]] >= 2;
        AtMostOnce(a, x);
      }
    }
  }

  lemma AtMostOnce(a: seq<Descriptor>, x: nat)
    requires DistinctNames(a) && x < |a|
    ensures multiset(a)[a[x]] == 1
  {
    assert a == a[..x] + [a[x]] + a[x + 1..];
    assert a[x] !in a[..x] && a[x] !in a[x + 1..];
  }

  lemma SameMembers(a: seq<Descriptor>, b: seq<Descriptor>)
    requires multiset(a) == multiset(b)
    ensures forall t :: t in a <==> t in b
  {
    forall t ensures t in a <==> t in b { assert t in a <==> t in multiset(a); }
  }

  /** The index, and so every plan, does not depend on the order of the catalogue. */
  lemma IndexIgnoresOrder(a: seq<Descriptor>, b: seq<Descriptor>)
    requires DistinctNames(a) && multiset(a) == multiset(b)
    ensures FirstProviders(SortByName(a)) == FirstProviders(SortByName(b))
  {
    DistinctByMultiset(a, b);
    var x, y := FirstProviders(SortByName(a)), FirstProviders(SortByName(b));
    forall c ensures c in x <==> c in y
      ensures c in x && c in y ==> x[c] == y[c]
    {
      SameProvider(a, b, c);
    }
    assert x.Keys == y.Keys;
  }

  lemma IndexAt(tools: seq<Descriptor>, c: string)
    requires DistinctNames(tools)
    ensures var index := FirstProviders(SortByName(tools));
            && (c in index <==> exists t :: t in tools && c in t.capabilities)
            && (c in index ==> LeastProvider(tools, c, index[c]))
  {
    IndexOfSorted(tools);
  }

  lemma SameProvider(a: seq<Descriptor>, b: seq<Descriptor>, c: string)
    requires DistinctNames(a) && DistinctNames(b) && multiset(a) == multiset(b)
    ensures var x, y := FirstProviders(SortByName(a)), FirstProviders(SortByName(b));
            (c in x <==> c in y) && (c in x && c in y ==> x[c] == y[c])
  {
    IndexAt(a, c);
    IndexAt(b, c);
    SameMembers(a, b);
    var x, y := FirstProviders(SortByName(a)), FirstProviders(SortByName(b));
    if c in x && c in y { LeastProviderIsUnique(a, c, x[c], y[c]); }
  }

  // ---- planning ----

  datatype Intent =
    | DocumentAnalysis | WorkspaceDiagnostics | ProjectSearch | BugFix | TestRun | CodeReview
    | DocumentationUpdate | ReleaseCheck | Unknown

  function IntentName(intent: Intent): string {
    match intent
    case DocumentAnalysis => "document_analysis"
    case WorkspaceDiagnostics => "workspace_diagnostics"
    case ProjectSearch => "project_search"
    case BugFix => "bug_fix"
    case TestRun => "test_run"
    case CodeReview => "code_review"
    case DocumentationUpdate => "documentation_update"
    case ReleaseCheck => "release_check"
    case Unknown => "unknown"
  }

  function IntentRoute(intent: Intent): seq<string> {
    match intent
    case DocumentAnalysis => ["document.read"]
    case ProjectSearch => ["project.search"]
    case WorkspaceDiagnostics => ["git.status", "test.run", "terminal.run"]
    case TestRun => ["test.run"]
    case CodeReview => ["git.diff"]
    case DocumentationUpdate => ["git.diff", "documentation.status"]
    case ReleaseCheck => ["release.status"]
    case _ => []
  }

  /** The names in the configuration, and the routes the policy report goes through. */
  lemma RoutesAre()
    ensures IntentName(DocumentAnalysis) == "document_analysis" && IntentRoute(DocumentAnalysis) == ["document.read"]
    ensures IntentName(ProjectSearch) == "project_search" && IntentRoute(ProjectSearch) == ["project.search"]
    ensures && IntentName(WorkspaceDiagnostics) == "workspace_diagnostics"
            && IntentRoute(WorkspaceDiagnostics) == ["git.status", "test.run", "terminal.run"]
    ensures IntentName(TestRun) == "test_run" && IntentRoute(TestRun) == ["test.run"]
    ensures IntentName(CodeReview) == "code_review" && IntentRoute(CodeReview) == ["git.diff"]
    ensures && IntentName(DocumentationUpdate) == "documentation_update"
            && IntentRoute(DocumentationUpdate) == ["git.diff", "documentation.status"]
    ensures IntentName(ReleaseCheck) == "release_check" && IntentRoute(ReleaseCheck) == ["release.status"]
    ensures IntentName(BugFix) == "bug_fix" && IntentRoute(BugFix) == []
    ensures IntentName(Unknown) == "unknown" && IntentRoute(Unknown) == []
  {
  }

  /** What the interpretation of a request decides for planning. */
  datatype Interpretation = Interpretation(
    stagedOnly: bool, runTests: bool, runCompileall: bool,
    allowFileChanges: bool, allowNetwork: bool, allowDependencies: bool)

  function Required(intent: Intent, interpretation: Interpretation): seq<string> {
    if intent == CodeReview && interpretation.stagedOnly then ["git.diff.cached"]
    else if intent == WorkspaceDiagnostics then
      ["git.status"] + (if interpretation.runTests then ["test.run"] else [])
      + (if interpretation.runCompileall then ["terminal.run"] else [])
    else IntentRoute(intent)
  }

  /** What each kind of request needs. */
  lemma RequiredIs(i: Interpretation)
    ensures Required(DocumentAnalysis, i) == ["document.read"] && Required(ProjectSearch, i) == ["project.search"]
    ensures Required(TestRun, i) == ["test.run"] && Required(ReleaseCheck, i) == ["release.status"]
    ensures Required(CodeReview, i) == [if i.stagedOnly then "git.diff.cached" else "git.diff"]
    ensures Required(DocumentationUpdate, i) == ["git.diff", "documentation.status"]
    ensures i.runTests && i.runCompileall ==>
              Required(WorkspaceDiagnostics, i) == ["git.status", "test.run", "terminal.run"]
    ensures i.runTests && !i.runCompileall ==> Required(WorkspaceDiagnostics, i) == ["git.status", "test.run"]
    ensures !i.runTests && i.runCompileall ==> Required(WorkspaceDiagnostics, i) == ["git.status", "terminal.run"]
    ensures !i.runTests && !i.runCompileall ==> Required(WorkspaceDiagnostics, i) == ["git.status"]
  {
  }

  lemma RequiredIsRouted(intent: Intent, interpretation: Interpretation)
    requires !(intent == CodeReview && interpretation.stagedOnly)
    ensures forall c :: c in Required(intent, interpretation) ==> c in IntentRoute(intent)
  {
  }

  datatype PlanningError =
    | NotActionable | NoRoute | BadCatalog | Unavailable(missing: seq<string>)
    | BadArguments(capability: string) | ConstraintViolation(capability: string)

  datatype Planned = Planned(steps: seq<Step>) | Refused(error: PlanningError)

  predicate StartsWith(s: string, prefix: string) { prefix <= s }

  /** A prohibition holds for the permissions that change files, and for the two families of
      capabilities by their prefix. */
  lemma ForbiddenIs(i: Interpretation, capability: string, tool: Descriptor)
    ensures !Forbidden(i, capability, tool) <==>
            && (tool.permission == "WRITE" || tool.permission == "DELETE" || tool.permission == "ADMIN" ==>
                 i.allowFileChanges)
            && (|capability| >= 8 && capability[..8] == "network." ==> i.allowNetwork)
            && (|capability| >= 11 && capability[..11] == "dependency." ==> i.allowDependencies)
  {
  }

  predicate Forbidden(i: Interpretation, capability: string, tool: Descriptor) {
    || (!i.allowFileChanges && tool.permission in {"WRITE", "DELETE", "ADMIN"})
    || (!i.allowNetwork && StartsWith(capability, "network."))
    || (!i.allowDependencies && StartsWith(capability, "dependency."))
  }

  type ArgumentBuilder = string -> Option<PermissionGate.Args>

  /** One step per capability, in order, for the tool the index names. */
  ghost predicate StepsFollow(
    steps: seq<Step>, required: seq<string>, index: map<string, Descriptor>, i: Interpretation,
    arguments: ArgumentBuilder)
  {
    && |steps| <= |required|
    && forall k :: 0 <= k < |steps| ==>
         && required[k] in index && arguments(required[k]).Some?
         && !Forbidden(i, required[k], index[required[k]])
         && var tool := index[required[k]];
            steps[k] == Step(k + 1, tool.name, arguments(required[k]).value, tool.permission,
                             if k == 0 then [] else [k])
  }

  /** The first required capability for which no step can be made. */
  ghost predicate FirstObstacle(
    required: seq<string>, index: map<string, Descriptor>, i: Interpretation, arguments: ArgumentBuilder, k: nat)
    requires forall c :: c in required ==> c in index
  {
    && k < |required| && (arguments(required[k]).None? || Forbidden(i, required[k], index[required[k]]))
    && forall j :: 0 <= j < k ==> arguments(required[j]).Some? && !Forbidden(i, required[j], index[required[j]])
  }

  ghost predicate Routable(intent: Intent, catalog: seq<Descriptor>) {
    intent != Unknown && intent != BugFix && catalog != [] && DistinctNames(SortByName(catalog))
  }

  predicate LacksCapability(intent: Intent, i: Interpretation, catalog: seq<Descriptor>) {
    exists c :: c in Required(intent, i) && c !in FirstProviders(SortByName(catalog))
  }

  /** The required capabilities without a provider, in order. */
  function Lacking(required: seq<string>, index: map<string, Descriptor>): seq<string> {
    if required == [] then []
    else (if required[0] in index then [] else [required[0]]) + Lacking(required[1..], index)
  }

  lemma LackingFrom(required: seq<string>, index: map<string, Descriptor>, k: nat)
    requires k < |required|
    ensures Lacking(required[k..], index) ==
            (if required[k] in index then [] else [required[k]]) + Lacking(required[k + 1..], index)
  {
    assert required[k..][1..] == required[k + 1..];
  }

  lemma {:induction false} NothingLacking(required: seq<string>, index: map<string, Descriptor>)
    ensures Lacking(required, index) == [] <==> forall c :: c in required ==> c in index
    decreases |required|
  {
    if required != [] {
      NothingLacking(required[1..], index);
      assert required == [required[0]] + required[1..];
    }
  }

  method MissingCapabilities(required: seq<string>, index: map<string, Descriptor>) returns (missing: seq<string>)
    ensures missing == [] <==> forall c :: c in required ==> c in index
    ensures missing == Lacking(required, index)
  {
    hide Lacking;
    missing := [];
    assert required[0..] == required;
    for k := 0 to |required|
      invariant missing + Lacking(required[k..], index) == Lacking(required, index)
    {
      LackingFrom(required, index, k);
      if required[k] !in index { missing := missing + [required[k]]; }
    }
    NothingLacking([], index);
    NothingLacking(required, index);
    assert required[|required|..] == [] && missing + [] == missing;
  }

  method PlanTools(intent: Intent, i: Interpretation, catalog: seq<Descriptor>, arguments: ArgumentBuilder)
    returns (result: Planned)
    ensures result == Refused(NotActionable) <==> intent == Unknown
    ensures result == Refused(NoRoute) <==> intent == BugFix
    ensures result == Refused(BadCatalog) <==> intent != Unknown && intent != BugFix && !Routable(intent, catalog)
    ensures result.Refused? && result.error.Unavailable? <==>
              Routable(intent, catalog) && LacksCapability(intent, i, catalog)
    ensures result.Refused? && result.error.Unavailable? ==>
              result.error.missing == Lacking(Required(intent, i), FirstProviders(SortByName(catalog)))
    ensures Routable(intent, catalog) && !LacksCapability(intent, i, catalog) ==>
              Outcome(result, Required(intent, i), FirstProviders(SortByName(catalog)), i, arguments)
  {
    if intent == Unknown { return Refused(NotActionable); }
    if intent == BugFix { return Refused(NoRoute); }
    var built := BuildCapabilityIndex(catalog);
    if !built.Index? { return Refused(BadCatalog); }
    var missing := MissingCapabilities(Required(intent, i), built.providers);
    if missing != [] { return Refused(Unavailable(missing)); }
    result := BuildSteps(Required(intent, i), built.providers, i, arguments);
  }

  /** All steps, unless some capability stands in the way; the first that does is named. */
  ghost predicate Outcome(
    result: Planned, required: seq<string>, index: map<string, Descriptor>, i: Interpretation,
    arguments: ArgumentBuilder)
    requires forall c :: c in required ==> c in index
  {
    if exists k: nat :: FirstObstacle(required, index, i, arguments, k) then
      exists k: nat :: FirstObstacle(required, index, i, arguments, k) && result == Refused(
        if arguments(required[k]).None? then BadArguments(required[k]) else ConstraintViolation(required[k]))
    else result.Planned? && |result.steps| == |required| && StepsFollow(result.steps, required, index, i, arguments)
  }

  method BuildSteps(
    required: seq<string>, index: map<string, Descriptor>, i: Interpretation, arguments: ArgumentBuilder)
    returns (result: Planned)
    requires forall c :: c in required ==> c in index
    ensures Outcome(result, required, index, i, arguments)
    ensures result.Refused? ==> result.error.BadArguments? || result.error.ConstraintViolation?
  {
    var steps: seq<Step> := [];
    for k := 0 to |required|
      invariant |steps| == k && StepsFollow(steps, required, index, i, arguments)
    {
      var capability := required[k];
      var tool := index[capability];
      var args := arguments(capability);
      if args.None? {
        assert FirstObstacle(required, index, i, arguments, k);
        return Refused(BadArguments(capability));
      }
      if Forbidden(i, capability, tool) {
        assert FirstObstacle(required, index, i, arguments, k);
        return Refused(ConstraintViolation(capability));
      }
      steps := steps + [Step(k + 1, tool.name, args.value, tool.permission, if k == 0 then [] else [k])];
    }
    return Planned(steps);
  }

  /** Every plan the planner builds passes the validation of execution plans, as long as the
      step limit admits it. */
  lemma PlannedIsValid(goal: string, maxSteps: int, steps: seq<Step>)
    requires goal != "" && 1 <= |steps| <= maxSteps
    requires forall k :: 0 <= k < |steps| ==>
      steps[k].stepId == k + 1 && steps[k].dependsOn == if k == 0 then [] else [k]
    ensures ValidPlan(Plan(goal, steps, maxSteps))
  {
    forall i | 0 <= i < |steps| ensures DependsOnEarlier(steps, i) {
      forall d | d in steps[i].dependsOn ensures exists j :: 0 <= j < i && steps[j].stepId == d {
        assert steps[i - 1].stepId == d;
      }
    }
  }
}
