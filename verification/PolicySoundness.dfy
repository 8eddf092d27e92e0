/** Why a clean policy report is worth having: with the snapshot built from the same metadata,
    planning and execution cannot fail in the ways the report checks
    (core/production_snapshot.py, core/tool_executor_factory.py). */
module PolicySoundness {
  import opened Options
  import opened Strings
  import opened PolicyConsistency
  import opened ToolPlanner
  import opened PlanExecution
  import G = PermissionGate

  // ---- the snapshot ----

  datatype PluginTool = PluginTool(
    name: string, domain: string, capabilities: seq<string>, permission: string, active: bool)

  /** What a production snapshot is built from.  `ruleNames` lists the rules in order. */
  datatype Sources = Sources(
    builtins: seq<string>, config: map<string, Metadata>, plugins: seq<PluginTool>,
    policy: G.Policy, ruleNames: seq<string>, domains: seq<Domain>, automatic: set<string>,
    models: Models, pluginPolicyEnabled: bool, casing: Casing)
  {
    /** Built-in names are the keys of a dict; plugin bootstrap activates a plugin tool only
        with a matching configuration entry. */
    ghost predicate Valid() {
      && (forall name :: name in ruleNames <==> name in policy.rules)
      && policy.Valid() && casing.LikePython()
      && (forall p :: p in plugins && p.active ==>
           && p.name in config && config[p.name].permission == p.permission
           && multiset(config[p.name].capabilities) == multiset(p.capabilities))
    }
  }

  function BuiltinPolicyTool(name: string, config: map<string, Metadata>): PolicyTool {
    if name in config
    then PolicyTool(name, false, "", config[name].capabilities, config[name].permission, "", true, true, true)
    else PolicyTool(name, false, "", [], "", "", false, false, true)
  }

  function PluginPolicyTool(p: PluginTool, config: map<string, Metadata>): PolicyTool {
    PolicyTool(p.name, true, p.domain, p.capabilities, p.permission, "", true, p.name in config, p.active)
  }

  function NormalizedTools(s: Sources): seq<PolicyTool> {
    seq(|s.builtins|, i requires 0 <= i < |s.builtins| => BuiltinPolicyTool(s.builtins[i], s.config))
    + seq(|s.plugins|, i requires 0 <= i < |s.plugins| => PluginPolicyTool(s.plugins[i], s.config))
  }

  function EffectName(effect: G.Effect): string {
    match effect case Allow => "allow" case Confirm => "confirm" case Deny => "deny"
  }

  function RiskName(risk: G.Risk): string {
    match risk case Low => "low" case Medium => "medium" case High => "high" case Critical => "critical"
  }

  function RuleEntry(policy: G.Policy, name: string): PolicyPermission
    requires name in policy.rules
  {
    PolicyPermission(name, EffectName(policy.rules[name].effect), RiskName(policy.rules[name].risk))
  }

  function Permissions(s: Sources): seq<PolicyPermission>
    requires s.Valid()
  {
    seq(|s.ruleNames|, i requires 0 <= i < |s.ruleNames| => RuleEntry(s.policy, s.ruleNames[i]))
  }

  /** All intents, by name. */
  const INTENTS: seq<Intent> := [
    BugFix, CodeReview, DocumentAnalysis, DocumentationUpdate, ProjectSearch, ReleaseCheck, TestRun, Unknown,
    WorkspaceDiagnostics]

  lemma EveryIntentListed(intent: Intent)
    ensures intent in INTENTS
  {
    match intent {
      case BugFix => assert INTENTS[0] == intent;
      case CodeReview => assert INTENTS[1] == intent;
      case DocumentAnalysis => assert INTENTS[2] == intent;
      case DocumentationUpdate => assert INTENTS[3] == intent;
      case ProjectSearch => assert INTENTS[4] == intent;
      case ReleaseCheck => assert INTENTS[5] == intent;
      case TestRun => assert INTENTS[6] == intent;
      case Unknown => assert INTENTS[7] == intent;
      case WorkspaceDiagnostics => assert INTENTS[8] == intent;
    }
  }

  const ROUTED: seq<Intent> := [
    DocumentAnalysis, ProjectSearch, WorkspaceDiagnostics, TestRun, CodeReview, DocumentationUpdate, ReleaseCheck]

  predicate Configured(tools: seq<PolicyTool>, capability: string) {
    exists t :: t in tools && Candidate(t, capability)
  }

  predicate ActiveIntent(s: Sources, intent: Intent) {
    intent in ROUTED && forall c :: c in IntentRoute(intent) ==> Configured(NormalizedTools(s), c)
  }

  function ActivePlugins(s: Sources): seq<string> {
    var active := Filter(s.plugins, (p: PluginTool) => p.active);
    seq(|active|, i requires 0 <= i < |active| => active[i].name)
  }

  function SnapshotConfig(s: Sources): Config
    requires s.Valid()
  {
    Config(
      seq(|INTENTS|, k requires 0 <= k < |INTENTS| => IntentName(INTENTS[k])),
      set i | i in INTENTS && ActiveIntent(s, i) :: IntentName(i),
      seq(|ROUTED|, k requires 0 <= k < |ROUTED| => Route(IntentName(ROUTED[k]), IntentRoute(ROUTED[k]))),
      s.domains, NormalizedTools(s), Permissions(s), s.automatic,
      s.models, ActivePlugins(s), s.pluginPolicyEnabled)
  }

  /** Active tools whose rule allows or confirms them. */
  predicate Effective(s: Sources, tool: PolicyTool)
    requires s.Valid()
  {
    && tool.active && PermissionOf(Permissions(s), tool.name).Some?
    && PermissionOf(Permissions(s), tool.name).value.effect in {"allow", "confirm"}
  }

  function EffectiveNames(s: Sources): set<string>
    requires s.Valid()
  {
    set t | t in NormalizedTools(s) && Effective(s, t) :: t.name
  }

  /** The configured names the catalogue is built from, in any order, each once. */
  ghost predicate Lists(s: Sources, configured: seq<string>)
    requires s.Valid()
  {
    && (forall name :: name in configured <==> name in s.config && name in EffectiveNames(s))
    && (forall i, j :: 0 <= i < j < |configured| ==> configured[i] != configured[j])
  }

  // ---- lookups agree ----

  lemma {:induction false} PermissionIsRule(
    policy: G.Policy, names: seq<string>, permissions: seq<PolicyPermission>, name: string)
    requires |permissions| == |names|
    requires forall i :: 0 <= i < |names| ==> names[i] in policy.rules && permissions[i] == RuleEntry(policy, names[i])
    ensures PermissionOf(permissions, name).Some? <==> name in names
    ensures name in names ==> PermissionOf(permissions, name) == Some(RuleEntry(policy, name))
    decreases |names|
  {
    if names != [] {
      var n := |names| - 1;
      PermissionIsRule(policy, names[..n], permissions[..n], name);
      assert names == names[..n] + [names[n]];
    }
  }

  lemma RuleOf(s: Sources, name: string)
    requires s.Valid()
    ensures PermissionOf(Permissions(s), name) ==
            if name in s.policy.rules then Some(RuleEntry(s.policy, name)) else None
  {
    PermissionIsRule(s.policy, s.ruleNames, Permissions(s), name);
  }

  lemma ToolOrigin(s: Sources, t: PolicyTool)
    requires t in NormalizedTools(s)
    ensures || (exists name :: name in s.builtins && t == BuiltinPolicyTool(name, s.config))
            || (exists p :: p in s.plugins && t == PluginPolicyTool(p, s.config))
  {
    var tools := NormalizedTools(s);
    var i :| 0 <= i < |tools| && tools[i] == t;
    if i < |s.builtins| {
      assert s.builtins[i] in s.builtins;
    } else {
      assert s.plugins[i - |s.builtins|] in s.plugins;
    }
  }

  /** An active contextual tool has exactly the capabilities and permission configured for it. */
  lemma ContextualIsConfigured(s: Sources, t: PolicyTool)
    requires s.Valid() && t in NormalizedTools(s) && t.active
    ensures t.contextual <==> t.name in s.config
    ensures t.contextual ==>
              && t.routingPermission == s.config[t.name].permission
              && forall c :: c in t.capabilities <==> c in s.config[t.name].capabilities
  {
    ToolOrigin(s, t);
    if t.plugin {
      var p :| p in s.plugins && t == PluginPolicyTool(p, s.config);
      forall c ensures c in t.capabilities <==> c in s.config[t.name].capabilities {
        assert c in p.capabilities <==> c in multiset(p.capabilities);
        assert c in s.config[t.name].capabilities <==> c in multiset(s.config[t.name].capabilities);
      }
    }
  }

  lemma EligibleIsEffective(s: Sources, t: PolicyTool, c: string)
    requires s.Valid()
    ensures Eligible(SnapshotConfig(s), t, c) <==> Candidate(t, c) && Effective(s, t)
  {
    RuleOf(s, t.name);
  }

  // ---- planning never misses a capability ----

  ghost predicate ExactlyOneProvider(catalog: seq<Descriptor>, capability: string) {
    && (exists i :: 0 <= i < |catalog| && capability in catalog[i].capabilities)
    && (forall i, j :: 0 <= i < j < |catalog| && capability in catalog[i].capabilities ==>
         capability !in catalog[j].capabilities)
  }

  /** Not blank, and as stripping and lower-casing leave it. */
  predicate Normal(c: string, x: Casing) { c != "" && Strip(c) == c && x.lower(c) == c }

  lemma DescribedCapability(s: Sources, name: string, c: string)
    requires name in s.config && c in s.config[name].capabilities && Normal(c, s.casing)
    ensures c in Describe(name, s.config[name], s.casing).capabilities
  {
    ProvidedIn(s.config[name].capabilities, c, s.casing);
    assert Gives(c, c, s.casing);
  }

  /** Whenever a tool of the catalogue provides the capability, its configuration spells the
      capability as the route does: in lower case and without blanks around it. */
  ghost predicate SpelledAlike(s: Sources, configured: seq<string>, c: string)
    requires forall name :: name in configured ==> name in s.config
  {
    forall i :: 0 <= i < |configured| && c in Described(configured, s.config, s.casing)[i].capabilities ==>
      c in s.config[configured[i]].capabilities
  }

  /** A tool of the catalogue that spells the capability alike is an eligible tool of the report,
      and the other way round. */
  lemma ProviderIsEligible(s: Sources, configured: seq<string>, c: string, i: nat)
    requires s.Valid() && Lists(s, configured) && i < |configured|
    requires configured[i] in s.config && c in s.config[configured[i]].capabilities
    ensures exists k :: 0 <= k < |NormalizedTools(s)| && NormalizedTools(s)[k].name == configured[i]
              && Eligible(SnapshotConfig(s), NormalizedTools(s)[k], c)
  {
    var name := configured[i];
    assert name in configured;
    var t :| t in NormalizedTools(s) && Effective(s, t) && t.name == name;
    ContextualIsConfigured(s, t);
    EligibleIsEffective(s, t, c);
    var k :| 0 <= k < |NormalizedTools(s)| && NormalizedTools(s)[k] == t;
  }

  lemma EligibleIsProvider(s: Sources, configured: seq<string>, c: string, t: PolicyTool)
    requires s.Valid() && Lists(s, configured) && Normal(c, s.casing)
    requires t in NormalizedTools(s) && Eligible(SnapshotConfig(s), t, c)
    ensures exists i :: 0 <= i < |configured| && configured[i] == t.name && configured[i] in s.config
              && c in s.config[configured[i]].capabilities
              && c in Described(configured, s.config, s.casing)[i].capabilities
  {
    EligibleIsEffective(s, t, c);
    ContextualIsConfigured(s, t);
    assert t.name in EffectiveNames(s);
    var i :| 0 <= i < |configured| && configured[i] == t.name;
    DescribedCapability(s, t.name, c);
  }

  /** Letters in lower case, and dots between them. */
  predicate Dotted(c: string) {
    && c != "" && 'a' <= c[0] <= 'z' && 'a' <= c[|c| - 1] <= 'z'
    && forall i :: 0 <= i < |c| ==> c[i] == '.' || 'a' <= c[i] <= 'z'
  }

  lemma DottedIsNormal(c: string, x: Casing)
    requires Dotted(c) && x.LikePython()
    ensures Normal(c, x)
  {
    SolidIsStripped(c);
    assert LowerAscii(c) == c;
  }

  lemma RoutesAreDotted(intent: Intent, c: string)
    requires c in IntentRoute(intent)
    ensures Dotted(c)
  {
    match intent {
      case DocumentAnalysis => assert Dotted("document.read");
      case ProjectSearch => assert Dotted("project.search");
      case WorkspaceDiagnostics => DiagnosticsAreDotted(c);
      case TestRun => assert Dotted("test.run");
      case CodeReview => assert Dotted("git.diff");
      case DocumentationUpdate => DocumentationIsDotted(c);
      case ReleaseCheck => assert Dotted("release.status");
      case _ =>
    }
  }

  lemma DiagnosticsAreDotted(c: string)
    requires c in ["git.status", "test.run", "terminal.run"]
    ensures Dotted(c)
  {
  }

  lemma DocumentationIsDotted(c: string)
    requires c in ["git.diff", "documentation.status"]
    ensures Dotted(c)
  {
  }

  /** The routes are written as the catalogue writes capabilities. */
  lemma RoutesAreNormal(intent: Intent, c: string, x: Casing)
    requires c in IntentRoute(intent) && x.LikePython()
    ensures Normal(c, x)
  {
    RoutesAreDotted(intent, c);
    DottedIsNormal(c, x);
  }

  lemma RouteOf(s: Sources, intent: Intent)
    requires s.Valid() && ActiveIntent(s, intent)
    ensures Route(IntentName(intent), IntentRoute(intent)) in SnapshotConfig(s).routes
    ensures IntentName(intent) in SnapshotConfig(s).activeIntents
  {
    var k :| 0 <= k < |ROUTED| && ROUTED[k] == intent;
    assert SnapshotConfig(s).routes[k] == Route(IntentName(intent), IntentRoute(intent));
    EveryIntentListed(intent);
  }

  lemma RouteHasOneEligible(s: Sources, intent: Intent, c: string)
    requires s.Valid() && CanExecuteTools(Report(SnapshotConfig(s)))
    requires ActiveIntent(s, intent) && c in IntentRoute(intent)
    ensures ExactlyOneEligible(SnapshotConfig(s), c) && SnapshotConfig(s).tools == NormalizedTools(s)
  {
    ReportIsExact(SnapshotConfig(s));
    RouteOf(s, intent);
    hide Report, NormalizedTools, Permissions, IntentRoute, IntentName, ExactlyOneEligible, ActiveIntent;
    assert RouteConsistent(SnapshotConfig(s), Route(IntentName(intent), IntentRoute(intent)));
  }

  lemma ProvidersShareName(s: Sources, configured: seq<string>, c: string, k: nat, i: nat)
    requires s.Valid() && Lists(s, configured) && i < |configured|
    requires SnapshotConfig(s).tools == NormalizedTools(s) && k < |NormalizedTools(s)|
    requires ExactlyOneEligible(SnapshotConfig(s), c) && Eligible(SnapshotConfig(s), NormalizedTools(s)[k], c)
    requires configured[i] in s.config && c in s.config[configured[i]].capabilities
    ensures configured[i] == NormalizedTools(s)[k].name
  {
    hide Lists;
    ProviderIsEligible(s, configured, c, i);
    hide SnapshotConfig, NormalizedTools, Eligible;
    var tools := NormalizedTools(s);
    var a :| 0 <= a < |tools| && tools[a].name == configured[i] && Eligible(SnapshotConfig(s), tools[a], c);
    assert !(a < k) && !(k < a);
  }

  /** A clean report means that each capability on the route of an active intent is provided by
      some tool of the catalogue that spells it as the route does. */
  lemma CleanMeansProvided(s: Sources, configured: seq<string>, intent: Intent, c: string) returns (at: nat)
    requires s.Valid() && Lists(s, configured) && CanExecuteTools(Report(SnapshotConfig(s)))
    requires ActiveIntent(s, intent) && c in IntentRoute(intent)
    ensures at < |configured| && configured[at] in s.config && c in s.config[configured[at]].capabilities
    ensures c in Described(configured, s.config, s.casing)[at].capabilities
    ensures forall i :: 0 <= i < |configured| && c in s.config[configured[i]].capabilities ==> i == at
  {
    RoutesAreNormal(intent, c, s.casing);
    RouteHasOneEligible(s, intent, c);
    assert forall i, j :: 0 <= i < j < |configured| ==> configured[i] != configured[j];
    assert forall name :: name in configured ==> name in s.config;
    var cfg, tools := SnapshotConfig(s), NormalizedTools(s);
    hide SnapshotConfig, NormalizedTools, Eligible, Described, Report, IntentRoute, ActiveIntent, Lists;
    var k :| 0 <= k < |tools| && Eligible(cfg, tools[k], c);
    EligibleIsProvider(s, configured, c, tools[k]);
    at :| 0 <= at < |configured| && configured[at] == tools[k].name && configured[at] in s.config
          && c in s.config[configured[at]].capabilities
          && c in Described(configured, s.config, s.casing)[at].capabilities;
    forall i | 0 <= i < |configured| && c in s.config[configured[i]].capabilities ensures i == at {
      ProvidersShareName(s, configured, c, k, i);
    }
  }

  /** It is the only provider exactly if no other tool spells the capability differently. */
  lemma CleanMeansOneProvider(s: Sources, configured: seq<string>, intent: Intent, c: string)
    requires s.Valid() && Lists(s, configured) && CanExecuteTools(Report(SnapshotConfig(s)))
    requires ActiveIntent(s, intent) && c in IntentRoute(intent)
    ensures exists i :: 0 <= i < |configured| && c in Described(configured, s.config, s.casing)[i].capabilities
    ensures ExactlyOneProvider(Described(configured, s.config, s.casing), c) <==> SpelledAlike(s, configured, c)
  {
    var at := CleanMeansProvided(s, configured, intent, c);
    assert forall name :: name in configured ==> name in s.config;
    hide Report, SnapshotConfig, ActiveIntent, IntentRoute, Lists, Described, SpelledAlike;
    OnlyProvider(s, configured, c, at);
  }

  lemma OnlyProvider(s: Sources, configured: seq<string>, c: string, at: nat)
    requires forall name :: name in configured ==> name in s.config
    requires at < |configured| && c in s.config[configured[at]].capabilities
    requires c in Described(configured, s.config, s.casing)[at].capabilities
    requires forall i :: 0 <= i < |configured| && c in s.config[configured[i]].capabilities ==> i == at
    ensures ExactlyOneProvider(Described(configured, s.config, s.casing), c) <==> SpelledAlike(s, configured, c)
  {
    var catalog := Described(configured, s.config, s.casing);
    assert |catalog| == |configured|;
    hide Described;
    if ExactlyOneProvider(catalog, c) {
      forall i | 0 <= i < |catalog| && c in catalog[i].capabilities ensures i == at {
        assert !(i < at) && !(at < i);
      }
    }
  }

  lemma ValidNameIsSolid(name: string)
    requires G.ValidToolName(name)
    ensures Strip(name) == name
  {
    SolidIsStripped(name);
  }

  /** The catalogue names its tools as they are configured. */
  lemma DescribedName(s: Sources, configured: seq<string>, k: nat)
    requires s.Valid() && Lists(s, configured) && k < |configured|
    ensures configured[k] in s.config && configured[k] in s.policy.rules && G.ValidToolName(configured[k])
    ensures forall name :: name in configured ==> name in s.config
    ensures Described(configured, s.config, s.casing)[k].name == configured[k]
  {
    hide NormalizedTools, Provided;
    var name := configured[k];
    assert name in configured;
    var t :| t in NormalizedTools(s) && Effective(s, t) && t.name == name;
    RuleOf(s, name);
    ValidNameIsSolid(name);
  }

  lemma CatalogNamesDistinct(s: Sources, configured: seq<string>)
    requires s.Valid() && Lists(s, configured)
    ensures DistinctNames(Described(configured, s.config, s.casing))
  {
    var catalog := Described(configured, s.config, s.casing);
    forall k | 0 <= k < |configured| ensures catalog[k].name == configured[k] { DescribedName(s, configured, k); }
    hide Described;
  }

  /** The route for staged changes is outside the report: it can be planned exactly when some
      tool of the catalogue happens to provide it. */
  lemma StagedReviewIsUnchecked(catalog: seq<Descriptor>, i: Interpretation)
    requires DistinctNames(catalog) && i.stagedOnly
    ensures !LacksCapability(CodeReview, i, catalog) <==>
            exists t :: t in catalog && "git.diff.cached" in t.capabilities
  {
    IndexAt(catalog, "git.diff.cached");
    assert Required(CodeReview, i) == ["git.diff.cached"];
  }

  lemma RoutedIsPlannable(s: Sources, configured: seq<string>, intent: Intent, i: Interpretation)
    requires s.Valid() && Lists(s, configured) && CanExecuteTools(Report(SnapshotConfig(s)))
    requires ActiveIntent(s, intent) && !(intent == CodeReview && i.stagedOnly)
    ensures !LacksCapability(intent, i, Described(configured, s.config, s.casing))
  {
    var catalog := Described(configured, s.config, s.casing);
    CatalogNamesDistinct(s, configured);
    RequiredIsRouted(intent, i);
    forall c | c in Required(intent, i) ensures c in FirstProviders(SortByName(catalog)) {
      CleanMeansOneProvider(s, configured, intent, c);
      var k :| 0 <= k < |catalog| && c in catalog[k].capabilities;
      assert catalog[k] in catalog;
      IndexAt(catalog, c);
    }
  }

  /** With a clean report, planning an active intent reports an unavailable capability exactly if
      it is a review of staged changes and no tool of the catalogue provides that. */
  lemma CleanMeansPlannable(s: Sources, configured: seq<string>, intent: Intent, i: Interpretation)
    requires s.Valid() && Lists(s, configured) && CanExecuteTools(Report(SnapshotConfig(s)))
    requires ActiveIntent(s, intent)
    ensures var catalog := Described(configured, s.config, s.casing);
            LacksCapability(intent, i, catalog) <==>
              && intent == CodeReview && i.stagedOnly
              && !exists t :: t in catalog && "git.diff.cached" in t.capabilities
  {
    var catalog := Described(configured, s.config, s.casing);
    hide Report, SnapshotConfig, ActiveIntent, LacksCapability, Described, Lists;
    if intent == CodeReview && i.stagedOnly {
      CatalogNamesDistinct(s, configured);
      StagedReviewIsUnchecked(catalog, i);
    } else {
      RoutedIsPlannable(s, configured, intent, i);
    }
  }

  /** The executor's environment: one callable per effective tool, under the same policy. */
  ghost predicate Matches(s: Sources, env: G.Env)
    requires s.Valid()
  {
    env.registry.Keys == EffectiveNames(s) && env.policy == Some(s.policy)
  }

  /** The metadata of a tool name a permission and a capability. */
  predicate Complete(m: Metadata) { Strip(m.permission) != "" && exists c :: c in m.capabilities && Strip(c) != "" }

  lemma CompleteIsDescribable(registered: set<string>, name: string, m: Metadata, x: Casing)
    requires x.LikePython() && G.ValidToolName(name) && name in registered
    ensures EntryError(registered, name, m, x).None? <==> Complete(m)
  {
    ValidNameIsSolid(name);
    NothingProvided(m.capabilities, x);
    hide Strip, Provided;
    assert x.upper("") == UpperAscii("") == "";
  }

  /** With a clean report and an active intent the catalogue is built exactly if every tool in it
      names a permission and a capability, which the report does not check; that something is
      configured, and all of it registered with the executor, follows from the report. */
  lemma CleanCatalogIsBuilt(s: Sources, configured: seq<string>, env: G.Env, intent: Intent)
    requires s.Valid() && Lists(s, configured) && Matches(s, env)
    requires CanExecuteTools(Report(SnapshotConfig(s))) && ActiveIntent(s, intent)
    ensures forall name :: name in configured ==> name in s.config
    ensures CatalogFails(env.registry.Keys, configured, s.config, s.casing) <==>
            exists name :: name in configured && !Complete(s.config[name])
  {
    RoutesAreNotEmpty(intent);
    var at := CleanMeansProvided(s, configured, intent, IntentRoute(intent)[0]);
    hide Report, SnapshotConfig, ActiveIntent, IntentRoute, EffectiveNames, Described, EntryError, Complete;
    assert configured != [];
    forall name | name in configured
      ensures EntryError(env.registry.Keys, name, s.config[name], s.casing).None? <==> Complete(s.config[name])
    {
      var k :| 0 <= k < |configured| && configured[k] == name;
      DescribedName(s, configured, k);
      CompleteIsDescribable(env.registry.Keys, name, s.config[name], s.casing);
    }
  }

  lemma RoutesAreNotEmpty(intent: Intent)
    requires intent in ROUTED
    ensures IntentRoute(intent) != []
  {
  }

  // ---- execution is never refused ----

  predicate Refusal(result: G.ToolResult) {
    || result.status == G.UnknownTool || result.code == G.ConfirmationRequired
    || result.code == G.PermissionDenied || result.code == G.PermissionPolicyError
  }

  lemma RuleOfCatalogTool(s: Sources, configured: seq<string>, k: nat)
    requires s.Valid() && Lists(s, configured) && k < |configured|
    requires CanExecuteTools(Report(SnapshotConfig(s)))
    ensures var name := configured[k];
            && name in s.config && name in EffectiveNames(s) && name in s.policy.rules && G.ValidToolName(name)
            && s.policy.rules[name].effect != G.Deny
            && (s.policy.rules[name].effect == G.Confirm ==> s.config[name].permission !in s.automatic)
  {
    hide Report, NormalizedTools;
    var cfg := SnapshotConfig(s);
    var name := configured[k];
    assert name in configured;
    ReportIsExact(cfg);
    var t :| t in NormalizedTools(s) && Effective(s, t) && t.name == name;
    RuleOf(s, name);
    ContextualIsConfigured(s, t);
    assert ToolConsistent(cfg, t);
  }

  lemma RefusedOnlyForConfirmation(env: G.Env, g: G.Gate, name: string, args: G.Args)
    requires env.policy.Some? && name in env.registry && name in env.policy.value.rules && G.ValidToolName(name)
    requires env.policy.value.rules[name].effect != G.Deny
    ensures var rule := env.policy.value.rules[name];
            Refusal(G.Execute(env, g, G.Request(name, args, None)).1) <==>
              rule.effect == G.Confirm && !(env.sessions && name in g.grants && rule.sessionGrantAllowed)
  {
  }

  /** With a clean report a catalogue tool is refused exactly when its rule asks for
      confirmation and no grant is live; that needs a permission that is not automatic as
      written. */
  lemma CleanMeansAdmitted(s: Sources, configured: seq<string>, k: nat, env: G.Env, g: G.Gate, args: G.Args)
    requires s.Valid() && Lists(s, configured) && k < |configured| && Matches(s, env)
    requires CanExecuteTools(Report(SnapshotConfig(s)))
    ensures var name := configured[k];
            var result := G.Execute(env, g, G.Request(name, args, None)).1;
            && name in s.config && name in s.policy.rules
            && (Refusal(result) <==>
                 && s.policy.rules[name].effect == G.Confirm
                 && !(env.sessions && name in g.grants && s.policy.rules[name].sessionGrantAllowed))
            && (Refusal(result) ==> s.config[name].permission !in s.automatic)
  {
    RuleOfCatalogTool(s, configured, k);
    RefusedOnlyForConfirmation(env, g, configured[k], args);
  }

  /** The configured permission is not written as the planner reads it: in upper case, without
      blanks around it. */
  predicate Misspelled(s: Sources, tool: string) {
    tool in s.config && s.casing.upper(Strip(s.config[tool].permission)) != s.config[tool].permission
  }

  /** A catalogue step whose permission is automatic is refused exactly if the configuration does
      not write it so and its rule asks for a confirmation without a live grant: the planner reads
      the permission stripped and in upper case, the report as written. */
  lemma AutomaticIsNeverRefused(s: Sources, configured: seq<string>, k: nat, env: G.Env, g: G.Gate, args: G.Args)
    requires s.Valid() && Lists(s, configured) && k < |configured| && Matches(s, env)
    requires CanExecuteTools(Report(SnapshotConfig(s)))
    requires Described(configured, s.config, s.casing)[k].permission in s.automatic
    ensures var name := configured[k];
            && name in s.policy.rules
            && (Refusal(G.Execute(env, g, G.Request(name, args, None)).1) <==>
                 && Misspelled(s, name) && s.policy.rules[name].effect == G.Confirm
                 && !(env.sessions && name in g.grants && s.policy.rules[name].sessionGrantAllowed))
  {
    assert configured[k] in configured;
    CleanMeansAdmitted(s, configured, k, env, g, args);
  }

  ghost predicate InCatalog(step: Step, catalog: seq<Descriptor>) {
    exists k :: 0 <= k < |catalog| && step.tool == catalog[k].name && step.permission == catalog[k].permission
  }

  ghost predicate FromCatalog(steps: seq<Step>, catalog: seq<Descriptor>) {
    forall i :: 0 <= i < |steps| ==> InCatalog(steps[i], catalog)
  }

  // ---- plans of automatic and confirmed steps ----

  /** How a step of a catalogue plan can be answered: never as unknown or denied; asking for a
      confirmation that nobody gives only if its permission is automatic but misspelled in the
      configuration; and with a policy error only if the user granted a session there is no
      room for. */
  predicate Answered(s: Sources, x: Context, step: Step, r: StepResult) {
    && r.status != G.UnknownTool && r.code != G.PermissionDenied
    && (r.code == G.ConfirmationRequired ==> step.permission in x.automatic && Misspelled(s, step.tool))
    && (r.code == G.PermissionPolicyError ==>
         && step.permission !in x.automatic && x.manager.Some?
         && G.Decide(x.manager.value(step.stepId), true) == G.ApproveSession)
  }

  /** One call of a registered tool with a rule that does not deny it. */
  lemma DirectAnswer(env: G.Env, g: G.Gate, name: string, args: G.Args)
    requires env.policy.Some? && name in env.registry && name in env.policy.value.rules && G.ValidToolName(name)
    requires env.policy.value.rules[name].effect != G.Deny
    ensures var result := G.Execute(env, g, G.Request(name, args, None)).1;
            && result.status != G.UnknownTool && result.code !in {G.PermissionDenied, G.PermissionPolicyError}
            && (result.code == G.ConfirmationRequired ==> env.policy.value.rules[name].effect == G.Confirm)
  {
  }

  lemma TokenAnswer(env: G.Env, g: G.Gate, name: string, args: G.Args)
    requires env.policy.Some? && name in env.registry && name in env.policy.value.rules && G.ValidToolName(name)
    requires env.policy.value.rules[name].effect != G.Deny
    ensures var result := G.ExecuteConfirmedOnce(env, g, G.Request(name, args, None)).1;
            && result.status != G.UnknownTool
            && result.code !in {G.PermissionDenied, G.PermissionPolicyError, G.ConfirmationRequired}
  {
  }

  lemma GrantedAnswer(env: G.Env, g: G.Gate, maximum: nat, name: string, args: G.Args)
    requires G.GrantSession(env, g, maximum, name).1
    ensures var result := G.Execute(env, G.GrantSession(env, g, maximum, name).0, G.Request(name, args, None)).1;
            && result.status != G.UnknownTool
            && result.code !in {G.PermissionDenied, G.PermissionPolicyError, G.ConfirmationRequired}
  {
  }

  lemma ConfirmedAnswer(env: G.Env, g: G.Gate, maximum: nat, name: string, args: G.Args, response: G.Response)
    requires env.policy.Some? && name in env.registry && name in env.policy.value.rules && G.ValidToolName(name)
    requires env.policy.value.rules[name].effect != G.Deny
    ensures var result := G.ExecuteWithConfirmation(env, g, maximum, G.Request(name, args, None), Some(response)).1;
            && result.status != G.UnknownTool && result.code !in {G.PermissionDenied, G.ConfirmationRequired}
            && (result.code == G.PermissionPolicyError ==> G.Decide(response, true) == G.ApproveSession)
  {
    DirectAnswer(env, g, name, args);
    var g1 := G.Execute(env, g, G.Request(name, args, None)).0;
    TokenAnswer(env, g1, name, args);
    if G.GrantSession(env, g1, maximum, name).1 { GrantedAnswer(env, g1, maximum, name, args); }
    assert G.Decide(response, false) == G.ApproveSession ==> G.Decide(response, true) == G.ApproveSession;
    hide G.Execute, G.GrantSession, G.Decide, G.ExecuteConfirmedOnce;
  }

  /** Judging a result keeps what it was answered with. */
  lemma JudgedAnswer(step: Step, result: G.ToolResult)
    ensures var r := Judge(step, result);
            && (r.status == G.UnknownTool ==> result.status == G.UnknownTool)
            && (r.code in {G.PermissionDenied, G.ConfirmationRequired, G.PermissionPolicyError} ==>
                 r.code == result.code)
  {
  }

  lemma StepIsAnswered(s: Sources, configured: seq<string>, x: Context, g: G.Gate, step: Step)
    requires s.Valid() && Lists(s, configured) && Matches(s, x.env) && x.automatic == s.automatic
    requires CanExecuteTools(Report(SnapshotConfig(s)))
    requires InCatalog(step, Described(configured, s.config, s.casing)) && x.Admits(step)
    ensures Answered(s, x, step, RunStep(x, g, step).1)
  {
    CatalogStep(s, configured, step);
    hide SnapshotConfig, Report, EffectiveNames, Lists, Described, NormalizedTools, InCatalog, Answered, RunStep;
    hide CanExecuteTools, Misspelled;
    if step.permission in x.automatic {
      AutomaticStepAnswered(s, x, g, step);
    } else {
      ConfirmedStepAnswered(s, x, g, step);
    }
  }

  lemma AutomaticStepAnswered(s: Sources, x: Context, g: G.Gate, step: Step)
    requires x.env.policy == Some(s.policy) && step.tool in x.env.registry && step.tool in s.policy.rules
    requires G.ValidToolName(step.tool) && s.policy.rules[step.tool].effect != G.Deny
    requires step.permission in x.automatic
    requires s.policy.rules[step.tool].effect == G.Confirm ==> Misspelled(s, step.tool)
    ensures Answered(s, x, step, RunStep(x, g, step).1)
  {
    DirectAnswer(x.env, g, step.tool, step.args);
    JudgedAnswer(step, G.Execute(x.env, g, G.Request(step.tool, step.args, None)).1);
    hide G.Execute, Judge, Misspelled, G.ValidToolName;
  }

  lemma ConfirmedStepAnswered(s: Sources, x: Context, g: G.Gate, step: Step)
    requires x.env.policy == Some(s.policy) && step.tool in x.env.registry && step.tool in s.policy.rules
    requires G.ValidToolName(step.tool) && s.policy.rules[step.tool].effect != G.Deny
    requires step.permission !in x.automatic && x.Admits(step)
    ensures Answered(s, x, step, RunStep(x, g, step).1)
  {
    var request := G.Request(step.tool, step.args, None);
    ConfirmedAnswer(x.env, g, x.maximum, step.tool, step.args, x.manager.value(step.stepId));
    JudgedAnswer(step, G.ExecuteWithConfirmation(x.env, g, x.maximum, request, x.AnswerFor(step)).1);
    hide G.ExecuteWithConfirmation, G.Decide, Judge, Misspelled, G.ValidToolName;
  }

  /** What a clean report says about the tool of a step. */
  lemma CatalogStep(s: Sources, configured: seq<string>, step: Step)
    requires s.Valid() && Lists(s, configured) && CanExecuteTools(Report(SnapshotConfig(s)))
    requires InCatalog(step, Described(configured, s.config, s.casing))
    ensures step.tool in EffectiveNames(s) && step.tool in s.policy.rules && G.ValidToolName(step.tool)
    ensures s.policy.rules[step.tool].effect != G.Deny
    ensures s.policy.rules[step.tool].effect == G.Confirm && step.permission in s.automatic ==> Misspelled(s, step.tool)
  {
    var catalog := Described(configured, s.config, s.casing);
    var k :| 0 <= k < |catalog| && step.tool == catalog[k].name && step.permission == catalog[k].permission;
    hide SnapshotConfig, Report, EffectiveNames, Lists, NormalizedTools, Strip, Provided;
    DescribedName(s, configured, k);
    RuleOfCatalogTool(s, configured, k);
    assert step.permission == s.casing.upper(Strip(s.config[step.tool].permission));
  }

  ghost predicate AnswersAll(s: Sources, x: Context, steps: seq<Step>) {
    forall g, j :: 0 <= j < |steps| ==> Answered(s, x, steps[j], RunStep(x, g, steps[j]).1)
  }

  /** The results so far are answers to the first steps. */
  ghost predicate AllAnswered(s: Sources, x: Context, steps: seq<Step>, results: seq<StepResult>) {
    |results| <= |steps| && forall k :: 0 <= k < |results| ==> Answered(s, x, steps[k], results[k])
  }

  lemma AdvanceIsAnswered(s: Sources, x: Context, steps: seq<Step>, i: nat, p: Progress)
    requires AnswersAll(s, x, steps) && i < |steps| && |p.results| == i && AllAnswered(s, x, steps, p.results)
    ensures var next := Advance(x, steps, steps[i], p);
            |next.results| == i + 1 && AllAnswered(s, x, steps, next.results)
  {
    var result := RunStep(x, p.g, steps[i]).1;
    assert Answered(s, x, steps[i], result);
    hide RunStep, Answered, StepEvents, Ordinal;
  }

  lemma {:induction false} StepsAreAnswered(s: Sources, x: Context, steps: seq<Step>, i: nat, p: Progress)
    requires AnswersAll(s, x, steps) && i <= |steps| && |p.results| == i && AllAnswered(s, x, steps, p.results)
    ensures AllAnswered(s, x, steps, RunSteps(x, steps, i, p).results)
    decreases |steps| - i
  {
    if p.stop.None? {
      RunStepsUnfold(x, steps, i, p);
      hide Advance, AnswersAll, AllAnswered, RunSteps, Missing;
      if i < |steps| && Missing(steps[i].dependsOn, p.completed) == [] {
        AdvanceIsAnswered(s, x, steps, i, p);
        StepsAreAnswered(s, x, steps, i + 1, Advance(x, steps, steps[i], p));
      }
    } else {
      RunStepsStopped(x, steps, i, p);
    }
  }

  predicate Unrefused(r: StepResult) {
    && r.status != G.UnknownTool && r.code != G.ConfirmationRequired
    && r.code != G.PermissionDenied && r.code != G.PermissionPolicyError
  }

  /** Steps with an automatic permission that is not misspelled are not refused. */
  ghost predicate AutomaticUnrefused(s: Sources, x: Context, steps: seq<Step>, results: seq<StepResult>) {
    && |results| <= |steps|
    && forall k :: 0 <= k < |results| ==>
         (steps[k].permission in x.automatic && !Misspelled(s, steps[k].tool) ==> Unrefused(results[k]))
  }

  /** End to end, for any plan over the catalogue, of automatic and confirmed steps alike: with a
      clean report it is blocked exactly if some step is not admitted; no step is ever unknown or
      denied; and no step with an automatic permission is refused, if the configuration writes
      that permission as the planner reads it. */
  lemma CleanPlanIsNeverRefused(s: Sources, configured: seq<string>, x: Context, g: G.Gate, plan: Plan)
    requires s.Valid() && Lists(s, configured) && Matches(s, x.env) && x.automatic == s.automatic
    requires CanExecuteTools(Report(SnapshotConfig(s)))
    requires FromCatalog(plan.steps, Described(configured, s.config, s.casing))
    ensures var result := ExecutePlan(x, g, plan).1;
            && (result.status == Blocked <==> exists i :: 0 <= i < |plan.steps| && !x.Admits(plan.steps[i]))
            && AllAnswered(s, x, plan.steps, result.steps)
            && AutomaticUnrefused(s, x, plan.steps, result.steps)
  {
    hide SnapshotConfig, Report, CanExecuteTools, EffectiveNames, Lists, Described, NormalizedTools;
    hide FromCatalog, Matches;
    CatalogStepsRegistered(s, configured, x, plan.steps);
    PreflightBlocksFirst(x, plan.steps);
    hide RunSteps, Preflight, AnswersAll;
    if Preflight(x, plan.steps).None? {
      CatalogAnswersAll(s, configured, x, plan.steps);
      StepsAreAnswered(s, x, plan.steps, 0, Start(g));
      AnsweredIsUnrefused(s, x, plan.steps, RunSteps(x, plan.steps, 0, Start(g)).results);
    }
  }

  lemma AnsweredIsUnrefused(s: Sources, x: Context, steps: seq<Step>, results: seq<StepResult>)
    requires AllAnswered(s, x, steps, results)
    ensures AutomaticUnrefused(s, x, steps, results)
  {
    hide Misspelled;
    forall k | 0 <= k < |results| && steps[k].permission in x.automatic && !Misspelled(s, steps[k].tool)
      ensures Unrefused(results[k])
    {
      assert Answered(s, x, steps[k], results[k]);
    }
  }

  lemma CatalogAnswersAll(s: Sources, configured: seq<string>, x: Context, steps: seq<Step>)
    requires s.Valid() && Lists(s, configured) && Matches(s, x.env) && x.automatic == s.automatic
    requires CanExecuteTools(Report(SnapshotConfig(s)))
    requires FromCatalog(steps, Described(configured, s.config, s.casing))
    requires forall j :: 0 <= j < |steps| ==> x.Admits(steps[j])
    ensures AnswersAll(s, x, steps)
  {
    hide SnapshotConfig, Report, EffectiveNames, Lists, Described, NormalizedTools, RunStep, InCatalog, Answered;
    forall g, j | 0 <= j < |steps| ensures Answered(s, x, steps[j], RunStep(x, g, steps[j]).1) {
      StepIsAnswered(s, configured, x, g, steps[j]);
    }
  }

  lemma PlannedFromCatalog(
    steps: seq<Step>, required: seq<string>, catalog: seq<Descriptor>, i: Interpretation, arguments: ArgumentBuilder)
    requires DistinctNames(catalog)
    requires StepsFollow(steps, required, FirstProviders(SortByName(catalog)), i, arguments)
    ensures FromCatalog(steps, catalog)
  {
    forall j | 0 <= j < |steps| ensures InCatalog(steps[j], catalog) {
      IndexAt(catalog, required[j]);
      var tool := FirstProviders(SortByName(catalog))[required[j]];
      var k :| 0 <= k < |catalog| && catalog[k] == tool;
    }
  }

  /** The whole chain: under a clean report, whatever the planner returns is a valid plan, is
      blocked exactly if some step is not admitted, stops only because a step failed, and none of
      its steps is refused in the ways the report rules out. */
  lemma PlannerOutputRuns(
    s: Sources, configured: seq<string>, x: Context, g: G.Gate, goal: string, maxSteps: int,
    intent: Intent, i: Interpretation, arguments: ArgumentBuilder, steps: seq<Step>)
    requires s.Valid() && Lists(s, configured) && Matches(s, x.env) && x.automatic == s.automatic
    requires CanExecuteTools(Report(SnapshotConfig(s)))
    requires var index := FirstProviders(SortByName(Described(configured, s.config, s.casing)));
             StepsFollow(steps, Required(intent, i), index, i, arguments)
    requires goal != "" && 1 <= |steps| <= maxSteps
    ensures var plan := Plan(goal, steps, maxSteps);
            var result := ExecutePlan(x, g, plan).1;
            && ValidPlan(plan)
            && (result.status == Blocked <==> exists j :: 0 <= j < |steps| && !x.Admits(steps[j]))
            && AllAnswered(s, x, steps, result.steps)
            && (result.status != Blocked && result.stop.Some? ==> result.stop.value.reason == StepFailed)
  {
    hide SnapshotConfig, Report, CanExecuteTools, Required, Matches, RunSteps;
    var catalog := Described(configured, s.config, s.casing);
    CatalogNamesDistinct(s, configured);
    PlannedFromCatalog(steps, Required(intent, i), catalog, i, arguments);
    PlannedIsValid(goal, maxSteps, steps);
    CleanPlanIsNeverRefused(s, configured, x, g, Plan(goal, steps, maxSteps));
    assert [] == steps[..0];
    ValidRun(x, Plan(goal, steps, maxSteps), 0, Start(g));
    hide AllAnswered, Described, Lists, StepsFollow, FirstProviders;
  }

  lemma CatalogStepsRegistered(s: Sources, configured: seq<string>, x: Context, steps: seq<Step>)
    requires s.Valid() && Lists(s, configured) && Matches(s, x.env)
    requires FromCatalog(steps, Described(configured, s.config, s.casing))
    ensures forall i :: 0 <= i < |steps| ==> steps[i].tool in x.env.registry
  {
    var catalog := Described(configured, s.config, s.casing);
    hide EffectiveNames, Strip, Provided;
    forall i | 0 <= i < |steps| ensures steps[i].tool in x.env.registry {
      assert InCatalog(steps[i], catalog);
      var k :| 0 <= k < |catalog| && steps[i].tool == catalog[k].name;
      DescribedName(s, configured, k);
      assert configured[k] in configured;
    }
  }
}
