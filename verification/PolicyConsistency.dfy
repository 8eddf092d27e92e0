/** The static cross-layer check of production metadata (core/policy_consistency.py:278-581). */
module PolicyConsistency {
  import opened Options

  datatype Severity = Fatal | Degraded | Warning

  datatype Code =
    | UnknownIntent | InactiveIntentRoute | MissingDomain | AmbiguousDomain | UnknownDomain
    | DisabledDomain | DomainCapabilityMissing | UnknownCapability | CapabilityWithoutTool
    | ToolMissing | AmbiguousTool | InactivePluginRoute | MissingPermissionRule
    | StalePermissionRule | InvalidPermissionDecision | UnknownRiskLevel | RiskMetadataMismatch
    | AutomaticConfirmationConflict | DeniedToolRoute | PluginDomainMissing
    | PluginCapabilityMissing | ToolCollision | PluginPermissionMissing | PluginRoutingMissing
    | MissingFallbackProfile | InvalidFallbackProfile | InvalidContextBudgetProfile | MissingContextBudget
    | MissingIntentModelMapping | IntentModelFallback | UnknownModelProfile | PluginPolicyDisabledActiveTools

  datatype Issue = Issue(code: Code, severity: Severity, subject: string, related: string)

  datatype PolicyTool = PolicyTool(
    name: string, plugin: bool, domain: string, capabilities: seq<string>,
    routingPermission: string, risk: string, contextual: bool, routingMetadata: bool, active: bool)

  datatype PolicyPermission = PolicyPermission(toolName: string, effect: string, risk: string)

  datatype Domain = Domain(
    name: string, intents: seq<string>, capabilities: seq<string>, toolNames: seq<string>, enabled: bool)

  datatype Route = Route(intent: string, capabilities: seq<string>)

  datatype ProfileMapping = ProfileMapping(intent: string, profile: string)

  /** The known model profiles and the policy that routes intents to them. */
  datatype Models = Models(
    profiles: seq<string>, fallback: string, fallbackOrder: seq<string>, budgets: seq<string>,
    intentProfiles: seq<ProfileMapping>)

  /** `intents` lists all known intents in order; `activePlugins` names the active plugin tools. */
  datatype Config = Config(
    intents: seq<string>, activeIntents: set<string>, routes: seq<Route>, domains: seq<Domain>,
    tools: seq<PolicyTool>, permissions: seq<PolicyPermission>, automatic: set<string>,
    models: Models, activePlugins: seq<string>, pluginPolicyEnabled: bool)

  const EFFECTS := {"allow", "confirm", "deny"}
  const RISKS := {"low", "medium", "high", "critical"}

  // ---- lookups ----

  /** `dict` built from pairs: the last entry for a name wins. */
  function PermissionOf(permissions: seq<PolicyPermission>, name: string): Option<PolicyPermission> {
    if permissions == [] then None
    else
      var last := permissions[|permissions| - 1];
      if last.toolName == name then Some(last) else PermissionOf(permissions[..|permissions| - 1], name)
  }

  function DomainOf(domains: seq<Domain>, name: string): Option<Domain> {
    if domains == [] then None
    else
      var last := domains[|domains| - 1];
      if last.name == name then Some(last) else DomainOf(domains[..|domains| - 1], name)
  }

  function Filter<A>(xs: seq<A>, keep: A -> bool): seq<A> {
    if xs == [] then []
    else
      var n := |xs| - 1;
      Filter(xs[..n], keep) + (if keep(xs[n]) then [xs[n]] else [])
  }

  function Collect<A>(xs: seq<A>, issues: A -> seq<Issue>): seq<Issue> {
    if xs == [] then [] else Collect(xs[..|xs| - 1], issues) + issues(xs[|xs| - 1])
  }

  /** Distinct tool names, first occurrence first. */
  function Names(tools: seq<PolicyTool>): seq<string> {
    if tools == [] then []
    else
      var names := Names(tools[..|tools| - 1]);
      var last := tools[|tools| - 1].name;
      if last in names then names else names + [last]
  }

  // ---- one item at a time ----

  function NamedIssues(cfg: Config, name: string): seq<Issue> {
    if |Filter(cfg.tools, (t: PolicyTool) => t.name == name)| > 1
    then [Issue(ToolCollision, Fatal, name, "")] else []
  }

  function DomainLacks(domain: Domain, capability: string): seq<Issue> {
    if capability in domain.capabilities then []
    else [Issue(DomainCapabilityMissing, Fatal, domain.name, capability)]
  }

  function RouteIssues(cfg: Config, route: Route): seq<Issue> {
    if route.intent !in cfg.intents then [Issue(UnknownIntent, Fatal, route.intent, "")]
    else if route.intent !in cfg.activeIntents then [Issue(InactiveIntentRoute, Warning, route.intent, "")]
    else
      var owners := Filter(cfg.domains, (d: Domain) => route.intent in d.intents);
      var enabled := Filter(owners, (d: Domain) => d.enabled);
      if owners == [] then [Issue(MissingDomain, Fatal, route.intent, "")]
      else if enabled == [] then [Issue(DisabledDomain, Fatal, route.intent, owners[0].name)]
      else
        (if |enabled| > 1 then [Issue(AmbiguousDomain, Fatal, route.intent, "")] else [])
        + Collect(enabled, (d: Domain) => Collect(route.capabilities, (c: string) => DomainLacks(d, c)))
  }

  function DomainToolIssues(cfg: Config, domain: Domain): seq<Issue> {
    Collect(domain.toolNames, (name: string) =>
      if exists t :: t in cfg.tools && t.name == name then []
      else [Issue(ToolMissing, Fatal, domain.name, name)])
  }

  function ToolDomainIssues(cfg: Config, tool: PolicyTool): seq<Issue> {
    var domain := DomainOf(cfg.domains, tool.domain);
    (if tool.domain != "" && domain.None?
     then [Issue(if tool.plugin then PluginDomainMissing else UnknownDomain, Fatal, tool.name, tool.domain)] else [])
    + (if tool.plugin && !tool.routingMetadata then [Issue(PluginRoutingMissing, Fatal, tool.name, "")] else [])
    + (if tool.plugin && domain.Some?
       then Collect(tool.capabilities, (c: string) =>
         if c in domain.value.capabilities then [] else [Issue(PluginCapabilityMissing, Fatal, tool.name, c)])
       else [])
  }

  predicate Candidate(tool: PolicyTool, capability: string) {
    tool.contextual && capability in tool.capabilities
  }

  predicate Eligible(cfg: Config, tool: PolicyTool, capability: string) {
    && Candidate(tool, capability) && tool.active
    && PermissionOf(cfg.permissions, tool.name).Some?
    && PermissionOf(cfg.permissions, tool.name).value.effect != "deny"
  }

  function EligibleTools(cfg: Config, capability: string): seq<PolicyTool> {
    Filter(cfg.tools, (t: PolicyTool) => Eligible(cfg, t, capability))
  }

  function CapabilityIssues(cfg: Config, intent: string, capability: string): seq<Issue> {
    var eligible := EligibleTools(cfg, capability);
    (if exists t :: t in cfg.tools && capability in t.capabilities then []
     else [Issue(UnknownCapability, Fatal, capability, intent)])
    + (if eligible == [] then
         var stalePlugin := exists t :: t in cfg.tools && Candidate(t, capability) && t.plugin && !t.active;
         [Issue(if stalePlugin then InactivePluginRoute else CapabilityWithoutTool, Fatal, capability, intent)]
       else if |eligible| > 1 then [Issue(AmbiguousTool, Fatal, capability, intent)]
       else [])
  }

  function RouteCapabilityIssues(cfg: Config, route: Route): seq<Issue> {
    if route.intent !in cfg.intents || route.intent !in cfg.activeIntents then []
    else Collect(route.capabilities, (c: string) => CapabilityIssues(cfg, route.intent, c))
  }

  function PermissionIssues(cfg: Config, tool: PolicyTool): seq<Issue> {
    if !tool.active then []
    else
      match PermissionOf(cfg.permissions, tool.name)
      case None =>
        [Issue(if tool.plugin then PluginPermissionMissing else MissingPermissionRule, Fatal, tool.name, "")]
      case Some(p) =>
        (if p.effect in EFFECTS then [] else [Issue(InvalidPermissionDecision, Fatal, tool.name, p.effect)])
        + (if p.risk in RISKS then [] else [Issue(UnknownRiskLevel, Fatal, tool.name, p.risk)])
        + (if tool.risk != "" && p.risk in RISKS && tool.risk != p.risk
           then [Issue(RiskMetadataMismatch, Fatal, tool.name, p.risk)] else [])
        + (if tool.contextual && p.effect == "deny" then [Issue(DeniedToolRoute, Fatal, tool.name, "")] else [])
        + (if tool.contextual && tool.routingPermission in cfg.automatic && p.effect == "confirm"
           then [Issue(AutomaticConfirmationConflict, Fatal, tool.name, "")] else [])
  }

  function StaleIssues(cfg: Config, p: PolicyPermission): seq<Issue> {
    if exists t :: t in cfg.tools && t.name == p.toolName then []
    else [Issue(StalePermissionRule, Fatal, p.toolName, "")]
  }

  function ProfileOf(mappings: seq<ProfileMapping>, intent: string): Option<string> {
    if mappings == [] then None
    else
      var last := mappings[|mappings| - 1];
      if last.intent == intent then Some(last.profile) else ProfileOf(mappings[..|mappings| - 1], intent)
  }

  predicate Routed(cfg: Config, intent: string) { exists r :: r in cfg.routes && r.intent == intent }

  function UnlessIn(name: string, known: seq<string>, code: Code): seq<Issue> {
    if name in known then [] else [Issue(code, Fatal, name, "")]
  }

  function IntentModelIssues(cfg: Config, intent: string): seq<Issue> {
    match ProfileOf(cfg.models.intentProfiles, intent)
    case None =>
      if Routed(cfg, intent) then [Issue(MissingIntentModelMapping, Fatal, intent, "")]
      else if cfg.models.fallback in cfg.models.profiles then
        [Issue(IntentModelFallback, Warning, intent, cfg.models.fallback)]
      else []
    case Some(profile) =>
      if profile in cfg.models.profiles then [] else [Issue(UnknownModelProfile, Fatal, intent, profile)]
  }

  // ---- one loop at a time ----

  function CollisionIssues(cfg: Config): seq<Issue> {
    Collect(Names(cfg.tools), (name: string) => NamedIssues(cfg, name))
  }

  function OwnerIssues(cfg: Config): seq<Issue> { Collect(cfg.routes, (r: Route) => RouteIssues(cfg, r)) }

  function ListedToolIssues(cfg: Config): seq<Issue> { Collect(cfg.domains, (d: Domain) => DomainToolIssues(cfg, d)) }

  function PlacementIssues(cfg: Config): seq<Issue> { Collect(cfg.tools, (t: PolicyTool) => ToolDomainIssues(cfg, t)) }

  function CoverageIssues(cfg: Config): seq<Issue> { Collect(cfg.routes, (r: Route) => RouteCapabilityIssues(cfg, r)) }

  function RuleIssues(cfg: Config): seq<Issue> { Collect(cfg.tools, (t: PolicyTool) => PermissionIssues(cfg, t)) }

  function StaleRuleIssues(cfg: Config): seq<Issue> {
    Collect(cfg.permissions, (p: PolicyPermission) => StaleIssues(cfg, p))
  }

  function FallbackIssues(cfg: Config): seq<Issue> {
    UnlessIn(cfg.models.fallback, cfg.models.profiles, MissingFallbackProfile)
    + Collect(cfg.models.fallbackOrder, (p: string) => UnlessIn(p, cfg.models.profiles, InvalidFallbackProfile))
  }

  function BudgetIssues(cfg: Config): seq<Issue> {
    Collect(cfg.models.budgets, (p: string) => UnlessIn(p, cfg.models.profiles, InvalidContextBudgetProfile))
    + Collect(cfg.models.profiles, (p: string) => UnlessIn(p, cfg.models.budgets, MissingContextBudget))
  }

  function MappingIssues(cfg: Config): seq<Issue> {
    Collect(cfg.intents, (i: string) => IntentModelIssues(cfg, i))
    + Collect(cfg.models.intentProfiles, (m: ProfileMapping) => UnlessIn(m.intent, cfg.intents, UnknownIntent))
  }

  function CommaJoined(names: seq<string>): string {
    if names == [] then "" else if |names| == 1 then names[0] else names[0] + "," + CommaJoined(names[1..])
  }

  function PluginPolicyIssues(cfg: Config): seq<Issue> {
    if !cfg.pluginPolicyEnabled && cfg.activePlugins != []
    then [Issue(PluginPolicyDisabledActiveTools, Fatal, CommaJoined(cfg.activePlugins), "")] else []
  }

  function ToolReport(cfg: Config): seq<Issue> {
    CollisionIssues(cfg) + OwnerIssues(cfg) + ListedToolIssues(cfg) + PlacementIssues(cfg)
    + CoverageIssues(cfg) + RuleIssues(cfg) + StaleRuleIssues(cfg)
  }

  function ModelReport(cfg: Config): seq<Issue> {
    FallbackIssues(cfg) + BudgetIssues(cfg) + MappingIssues(cfg) + PluginPolicyIssues(cfg)
  }

  /** All issues, as they are found; the report sorts them when it is built. */
  function Report(cfg: Config): seq<Issue> { ToolReport(cfg) + ModelReport(cfg) }

  predicate CanExecuteTools(issues: seq<Issue>) {
    forall i :: i in issues ==> i.severity != Fatal
  }

  // ---- what a clean report says ----

  predicate UniqueNames(tools: seq<PolicyTool>) {
    forall i, j :: 0 <= i < j < |tools| ==> tools[i].name != tools[j].name
  }

  predicate Serves(domain: Domain, intent: string) { domain.enabled && intent in domain.intents }

  ghost predicate RouteConsistent(cfg: Config, route: Route) {
    && route.intent in cfg.intents
    && (route.intent in cfg.activeIntents ==>
         && (exists d :: d in cfg.domains && Serves(d, route.intent))
         && (forall i, j :: 0 <= i < j < |cfg.domains| && Serves(cfg.domains[i], route.intent) ==>
              !Serves(cfg.domains[j], route.intent))
         && (forall d, c :: d in cfg.domains && Serves(d, route.intent) && c in route.capabilities ==>
              c in d.capabilities)
         && (forall c :: c in route.capabilities ==> ExactlyOneEligible(cfg, c)))
  }

  ghost predicate ExactlyOneEligible(cfg: Config, capability: string) {
    && (exists i :: 0 <= i < |cfg.tools| && Eligible(cfg, cfg.tools[i], capability))
    && (forall i, j :: 0 <= i < j < |cfg.tools| && Eligible(cfg, cfg.tools[i], capability) ==>
         !Eligible(cfg, cfg.tools[j], capability))
  }

  ghost predicate ToolConsistent(cfg: Config, tool: PolicyTool) {
    && (tool.domain != "" ==> DomainOf(cfg.domains, tool.domain).Some?)
    && (tool.plugin ==> tool.routingMetadata)
    && (tool.plugin && DomainOf(cfg.domains, tool.domain).Some? ==>
         forall c :: c in tool.capabilities ==> c in DomainOf(cfg.domains, tool.domain).value.capabilities)
    && (tool.active ==>
         && PermissionOf(cfg.permissions, tool.name).Some?
         && var p := PermissionOf(cfg.permissions, tool.name).value;
            && p.effect in EFFECTS && p.risk in RISKS && (tool.risk != "" ==> tool.risk == p.risk)
            && (tool.contextual ==> p.effect != "deny")
            && (tool.contextual && tool.routingPermission in cfg.automatic ==> p.effect != "confirm"))
  }

  ghost predicate ModelsConsistent(cfg: Config) {
    var m := cfg.models;
    && m.fallback in m.profiles && (forall p :: p in m.fallbackOrder ==> p in m.profiles)
    && (forall p :: p in m.budgets <==> p in m.profiles)
    && (forall i :: i in cfg.intents ==>
         match ProfileOf(m.intentProfiles, i) case None => !Routed(cfg, i) case Some(p) => p in m.profiles)
    && (forall x :: x in m.intentProfiles ==> x.intent in cfg.intents)
  }

  /** Every layer agrees with every other. */
  ghost predicate Consistent(cfg: Config) {
    && ToolsConsistent(cfg) && ModelsConsistent(cfg)
    && (cfg.pluginPolicyEnabled || cfg.activePlugins == [])
  }

  ghost predicate ToolsConsistent(cfg: Config) {
    && UniqueNames(cfg.tools)
    && (forall r :: r in cfg.routes ==> RouteConsistent(cfg, r))
    && (forall t :: t in cfg.tools ==> ToolConsistent(cfg, t))
    && (forall d, name :: d in cfg.domains && name in d.toolNames ==> exists t :: t in cfg.tools && t.name == name)
    && (forall p :: p in cfg.permissions ==> exists t :: t in cfg.tools && t.name == p.toolName)
  }

  lemma {:induction false} CollectClean<A>(xs: seq<A>, issues: A -> seq<Issue>)
    ensures CanExecuteTools(Collect(xs, issues)) <==> forall x :: x in xs ==> CanExecuteTools(issues(x))
    decreases |xs|
  {
    if xs != [] {
      var n := |xs| - 1;
      CollectClean(xs[..n], issues);
      CleanAppend(Collect(xs[..n], issues), issues(xs[n]));
      assert forall x :: x in xs <==> x in xs[..n] || x == xs[n] by { assert xs == xs[..n] + [xs[n]]; }
    }
  }

  lemma CleanAppend(a: seq<Issue>, b: seq<Issue>)
    ensures CanExecuteTools(a + b) <==> CanExecuteTools(a) && CanExecuteTools(b)
  {
    assert forall i :: i in a + b <==> i in a || i in b;
  }

  lemma {:induction false} FilterIn<A>(xs: seq<A>, keep: A -> bool)
    ensures forall x :: x in Filter(xs, keep) <==> x in xs && keep(x)
    ensures Filter(xs, keep) == [] <==> forall i :: 0 <= i < |xs| ==> !keep(xs[i])
    decreases |xs|
  {
    if xs != [] {
      var n := |xs| - 1;
      FilterIn(xs[..n], keep);
      assert forall x :: x in xs <==> x in xs[..n] || x == xs[n] by { assert xs == xs[..n] + [xs[n]]; }
      assert forall i :: 0 <= i < n ==> xs[..n][i] == xs[i];
    }
  }

  lemma {:induction false} FilterAtMostOne<A>(xs: seq<A>, keep: A -> bool)
    ensures |Filter(xs, keep)| <= 1 <==> forall i, j :: 0 <= i < j < |xs| && keep(xs[i]) ==> !keep(xs[j])
    decreases |xs|
  {
    if xs != [] {
      var n := |xs| - 1;
      FilterAtMostOne(xs[..n], keep);
      FilterIn(xs[..n], keep);
      assert forall i :: 0 <= i < n ==> xs[..n][i] == xs[i];
    }
  }

  lemma {:induction false} NamesIn(tools: seq<PolicyTool>)
    ensures forall name :: name in Names(tools) <==> exists i :: 0 <= i < |tools| && tools[i].name == name
    decreases |tools|
  {
    if tools != [] {
      var n := |tools| - 1;
      NamesIn(tools[..n]);
      forall name ensures name in Names(tools) <==> exists i :: 0 <= i < |tools| && tools[i].name == name {
        if i :| 0 <= i < |tools| && tools[i].name == name {
          if i < n { assert tools[..n][i].name == name; }
        }
        if name in Names(tools[..n]) {
          var i :| 0 <= i < n && tools[..n][i].name == name;
          assert tools[i].name == name;
        }
      }
    }
  }

  lemma CollisionsClean(cfg: Config)
    ensures CanExecuteTools(CollisionIssues(cfg)) <==> UniqueNames(cfg.tools)
  {
    var issues := (name: string) => NamedIssues(cfg, name);
    CollectClean(Names(cfg.tools), issues);
    NamesIn(cfg.tools);
    forall name ensures CanExecuteTools(issues(name)) <==>
        forall i, j :: 0 <= i < j < |cfg.tools| && cfg.tools[i].name == name ==> cfg.tools[j].name != name {
      FilterAtMostOne(cfg.tools, (t: PolicyTool) => t.name == name);
      assert issues(name) != [] ==> issues(name)[0] in issues(name);
    }
    if CanExecuteTools(Collect(Names(cfg.tools), issues)) {
      forall i, j | 0 <= i < j < |cfg.tools| ensures cfg.tools[i].name != cfg.tools[j].name {
        assert cfg.tools[i].name in Names(cfg.tools);
        assert CanExecuteTools(issues(cfg.tools[i].name));
      }
    }
  }

  lemma {:induction false} FilterTwice<A>(xs: seq<A>, first: A -> bool, second: A -> bool, both: A -> bool)
    requires forall x :: both(x) <==> first(x) && second(x)
    ensures Filter(Filter(xs, first), second) == Filter(xs, both)
    decreases |xs|
  {
    if xs != [] {
      var n := |xs| - 1;
      FilterTwice(xs[..n], first, second, both);
      var kept := Filter(xs[..n], first);
      if first(xs[n]) {
        assert (kept + [xs[n]])[..|kept|] == kept;
      } else {
        assert kept + [] == kept;
        assert Filter(xs[..n], both) + [] == Filter(xs[..n], both);
      }
    }
  }

  /** The enabled owners of an intent. */
  function Serving(cfg: Config, intent: string): seq<Domain> {
    Filter(Filter(cfg.domains, (d: Domain) => intent in d.intents), (d: Domain) => d.enabled)
  }

  lemma ServingIs(cfg: Config, intent: string)
    ensures forall d :: d in Serving(cfg, intent) <==> d in cfg.domains && Serves(d, intent)
    ensures |Serving(cfg, intent)| <= 1 <==>
              forall i, j :: 0 <= i < j < |cfg.domains| && Serves(cfg.domains[i], intent) ==>
                !Serves(cfg.domains[j], intent)
    ensures Filter(cfg.domains, (d: Domain) => intent in d.intents) == [] ==> Serving(cfg, intent) == []
  {
    var owns, serves := (d: Domain) => intent in d.intents, (d: Domain) => Serves(d, intent);
    FilterTwice(cfg.domains, owns, (d: Domain) => d.enabled, serves);
    FilterIn(cfg.domains, serves);
    FilterAtMostOne(cfg.domains, serves);
    assert Filter(cfg.domains, owns) == [] ==> Serving(cfg, intent) == [];
    hide Filter;
  }

  lemma OwnersClean(cfg: Config, route: Route)
    ensures CanExecuteTools(RouteIssues(cfg, route)) <==>
      && route.intent in cfg.intents
      && (route.intent in cfg.activeIntents ==>
           && (exists d :: d in cfg.domains && Serves(d, route.intent))
           && (forall i, j :: 0 <= i < j < |cfg.domains| && Serves(cfg.domains[i], route.intent) ==>
                !Serves(cfg.domains[j], route.intent))
           && (forall d, c :: d in cfg.domains && Serves(d, route.intent) && c in route.capabilities ==>
                c in d.capabilities))
  {
    var enabled := Serving(cfg, route.intent);
    var issues := RouteIssues(cfg, route);
    ServingIs(cfg, route.intent);
    assert issues != [] ==> issues[0] in issues;
    if route.intent in cfg.intents && route.intent in cfg.activeIntents && enabled != [] {
      assert enabled[0] in enabled;
      ServedClean(route, enabled);
    }
  }

  lemma ServedClean(route: Route, enabled: seq<Domain>)
    ensures CanExecuteTools(
              (if |enabled| > 1 then [Issue(AmbiguousDomain, Fatal, route.intent, "")] else [])
              + Collect(enabled, (d: Domain) => Collect(route.capabilities, (c: string) => DomainLacks(d, c)))) <==>
            |enabled| <= 1 && forall d, c :: d in enabled && c in route.capabilities ==> c in d.capabilities
  {
    var lacks := (d: Domain) => Collect(route.capabilities, (c: string) => DomainLacks(d, c));
    var crowd := if |enabled| > 1 then [Issue(AmbiguousDomain, Fatal, route.intent, "")] else [];
    CleanAppend(crowd, Collect(enabled, lacks));
    assert crowd != [] ==> crowd[0] in crowd;
    CollectClean(enabled, lacks);
    forall d ensures CanExecuteTools(lacks(d)) <==> forall c :: c in route.capabilities ==> c in d.capabilities {
      LacksClean(d, route.capabilities);
    }
  }

  lemma LacksClean(domain: Domain, capabilities: seq<string>)
    ensures CanExecuteTools(Collect(capabilities, (c: string) => DomainLacks(domain, c))) <==>
            forall c :: c in capabilities ==> c in domain.capabilities
  {
    var lacks := (c: string) => DomainLacks(domain, c);
    CollectClean(capabilities, lacks);
    assert forall c :: lacks(c) != [] ==> lacks(c)[0] in lacks(c);
  }

  lemma CapabilityClean(cfg: Config, intent: string, capability: string)
    ensures CanExecuteTools(CapabilityIssues(cfg, intent, capability)) <==> ExactlyOneEligible(cfg, capability)
  {
    var keep := (t: PolicyTool) => Eligible(cfg, t, capability);
    var eligible := EligibleTools(cfg, capability);
    var issues := CapabilityIssues(cfg, intent, capability);
    FilterIn(cfg.tools, keep);
    FilterAtMostOne(cfg.tools, keep);
    if issues != [] { assert issues[0] in issues; }
    if ExactlyOneEligible(cfg, capability) {
      var i :| 0 <= i < |cfg.tools| && Eligible(cfg, cfg.tools[i], capability);
      assert cfg.tools[i] in cfg.tools && capability in cfg.tools[i].capabilities;
      assert keep(cfg.tools[i]);
    }
  }

  lemma RouteClean(cfg: Config, route: Route)
    ensures CanExecuteTools(RouteIssues(cfg, route)) && CanExecuteTools(RouteCapabilityIssues(cfg, route)) <==>
            RouteConsistent(cfg, route)
  {
    OwnersClean(cfg, route);
    if route.intent in cfg.intents && route.intent in cfg.activeIntents {
      var issues := (c: string) => CapabilityIssues(cfg, route.intent, c);
      CollectClean(route.capabilities, issues);
      forall c ensures CanExecuteTools(issues(c)) <==> ExactlyOneEligible(cfg, c) {
        CapabilityClean(cfg, route.intent, c);
      }
    }
  }

  lemma ToolDomainClean(cfg: Config, tool: PolicyTool)
    ensures CanExecuteTools(ToolDomainIssues(cfg, tool)) <==>
      && (tool.domain != "" ==> DomainOf(cfg.domains, tool.domain).Some?)
      && (tool.plugin ==> tool.routingMetadata)
      && (tool.plugin && DomainOf(cfg.domains, tool.domain).Some? ==>
           forall c :: c in tool.capabilities ==> c in DomainOf(cfg.domains, tool.domain).value.capabilities)
  {
    var domain := DomainOf(cfg.domains, tool.domain);
    var a := if tool.domain != "" && domain.None?
             then [Issue(if tool.plugin then PluginDomainMissing else UnknownDomain, Fatal, tool.name, tool.domain)]
             else [];
    var b := if tool.plugin && !tool.routingMetadata then [Issue(PluginRoutingMissing, Fatal, tool.name, "")] else [];
    var c := if tool.plugin && domain.Some?
             then Collect(tool.capabilities, (c: string) =>
               if c in domain.value.capabilities then [] else [Issue(PluginCapabilityMissing, Fatal, tool.name, c)])
             else [];
    assert ToolDomainIssues(cfg, tool) == a + b + c;
    CleanAppend(a, b);
    CleanAppend(a + b, c);
    assert a != [] ==> a[0] in a;
    assert b != [] ==> b[0] in b;
    if tool.plugin && domain.Some? {
      var lacks := (c: string) =>
        if c in domain.value.capabilities then [] else [Issue(PluginCapabilityMissing, Fatal, tool.name, c)];
      CollectClean(tool.capabilities, lacks);
      assert forall x :: lacks(x) != [] ==> lacks(x)[0] in lacks(x);
    }
  }

  lemma PermissionClean(cfg: Config, tool: PolicyTool)
    ensures CanExecuteTools(PermissionIssues(cfg, tool)) <==>
      (tool.active ==>
        && PermissionOf(cfg.permissions, tool.name).Some?
        && var p := PermissionOf(cfg.permissions, tool.name).value;
           && p.effect in EFFECTS && p.risk in RISKS && (tool.risk != "" ==> tool.risk == p.risk)
           && (tool.contextual ==> p.effect != "deny")
           && (tool.contextual && tool.routingPermission in cfg.automatic ==> p.effect != "confirm"))
  {
    var issues := PermissionIssues(cfg, tool);
    if issues != [] { assert issues[0] in issues; }
  }

  lemma ToolReportIsExact(cfg: Config)
    ensures CanExecuteTools(ToolReport(cfg)) <==> ToolsConsistent(cfg)
  {
    var s1, s2, s3, s4 := CollisionIssues(cfg), OwnerIssues(cfg), ListedToolIssues(cfg), PlacementIssues(cfg);
    var s5, s6, s7 := CoverageIssues(cfg), RuleIssues(cfg), StaleRuleIssues(cfg);
    CleanAppend(s1, s2);
    CleanAppend(s1 + s2, s3);
    CleanAppend(s1 + s2 + s3, s4);
    CleanAppend(s1 + s2 + s3 + s4, s5);
    CleanAppend(s1 + s2 + s3 + s4 + s5, s6);
    CleanAppend(s1 + s2 + s3 + s4 + s5 + s6, s7);
    CollisionsClean(cfg);
    RoutesClean(cfg);
    ToolsClean(cfg);
    DomainToolsClean(cfg);
    StaleRulesClean(cfg);
  }

  lemma UnlessInClean(names: seq<string>, known: seq<string>, code: Code)
    ensures CanExecuteTools(Collect(names, (n: string) => UnlessIn(n, known, code))) <==>
            forall n :: n in names ==> n in known
  {
    var check := (n: string) => UnlessIn(n, known, code);
    CollectClean(names, check);
    assert forall n :: check(n) != [] ==> check(n)[0] in check(n);
  }

  lemma FallbackClean(cfg: Config)
    ensures CanExecuteTools(FallbackIssues(cfg)) <==>
            && cfg.models.fallback in cfg.models.profiles
            && forall p :: p in cfg.models.fallbackOrder ==> p in cfg.models.profiles
  {
    var m := cfg.models;
    var first := UnlessIn(m.fallback, m.profiles, MissingFallbackProfile);
    CleanAppend(first, Collect(m.fallbackOrder, (p: string) => UnlessIn(p, m.profiles, InvalidFallbackProfile)));
    assert first != [] ==> first[0] in first;
    UnlessInClean(m.fallbackOrder, m.profiles, InvalidFallbackProfile);
  }

  lemma BudgetsClean(cfg: Config)
    ensures CanExecuteTools(BudgetIssues(cfg)) <==> forall p :: p in cfg.models.budgets <==> p in cfg.models.profiles
  {
    var m := cfg.models;
    CleanAppend(Collect(m.budgets, (p: string) => UnlessIn(p, m.profiles, InvalidContextBudgetProfile)),
                Collect(m.profiles, (p: string) => UnlessIn(p, m.budgets, MissingContextBudget)));
    UnlessInClean(m.budgets, m.profiles, InvalidContextBudgetProfile);
    UnlessInClean(m.profiles, m.budgets, MissingContextBudget);
  }

  lemma MappingsClean(cfg: Config)
    ensures CanExecuteTools(MappingIssues(cfg)) <==>
      && (forall i :: i in cfg.intents ==>
           match ProfileOf(cfg.models.intentProfiles, i)
           case None => !Routed(cfg, i)
           case Some(p) => p in cfg.models.profiles)
      && (forall x :: x in cfg.models.intentProfiles ==> x.intent in cfg.intents)
  {
    var mapped := (i: string) => IntentModelIssues(cfg, i);
    var known := (m: ProfileMapping) => UnlessIn(m.intent, cfg.intents, UnknownIntent);
    CleanAppend(Collect(cfg.intents, mapped), Collect(cfg.models.intentProfiles, known));
    CollectClean(cfg.intents, mapped);
    CollectClean(cfg.models.intentProfiles, known);
    assert forall i :: mapped(i) != [] ==> mapped(i)[0] in mapped(i);
    assert forall m :: known(m) != [] ==> known(m)[0] in known(m);
  }

  lemma ModelReportIsExact(cfg: Config)
    ensures CanExecuteTools(ModelReport(cfg)) <==>
            ModelsConsistent(cfg) && (cfg.pluginPolicyEnabled || cfg.activePlugins == [])
  {
    var a, b, c, d := FallbackIssues(cfg), BudgetIssues(cfg), MappingIssues(cfg), PluginPolicyIssues(cfg);
    FallbackClean(cfg);
    BudgetsClean(cfg);
    MappingsClean(cfg);
    assert d != [] ==> d[0] in d;
    hide FallbackIssues, BudgetIssues, MappingIssues;
    CleanAppend(a, b);
    CleanAppend(a + b, c);
    CleanAppend(a + b + c, d);
  }

  /** The report lets tools run exactly when every layer agrees with every other. */
  lemma ReportIsExact(cfg: Config)
    ensures CanExecuteTools(Report(cfg)) <==> Consistent(cfg)
  {
    ToolReportIsExact(cfg);
    ModelReportIsExact(cfg);
    hide ToolReport, ModelReport, ToolsConsistent, ModelsConsistent;
    CleanAppend(ToolReport(cfg), ModelReport(cfg));
  }

  lemma StaleRulesClean(cfg: Config)
    ensures CanExecuteTools(StaleRuleIssues(cfg)) <==>
            forall p :: p in cfg.permissions ==> exists t :: t in cfg.tools && t.name == p.toolName
  {
    var stale := (p: PolicyPermission) => StaleIssues(cfg, p);
    CollectClean(cfg.permissions, stale);
    assert forall p :: stale(p) != [] ==> stale(p)[0] in stale(p);
  }

  lemma RoutesClean(cfg: Config)
    ensures CanExecuteTools(OwnerIssues(cfg)) && CanExecuteTools(CoverageIssues(cfg)) <==>
            forall r :: r in cfg.routes ==> RouteConsistent(cfg, r)
  {
    CollectClean(cfg.routes, (r: Route) => RouteIssues(cfg, r));
    CollectClean(cfg.routes, (r: Route) => RouteCapabilityIssues(cfg, r));
    forall r ensures CanExecuteTools(RouteIssues(cfg, r)) && CanExecuteTools(RouteCapabilityIssues(cfg, r)) <==>
        RouteConsistent(cfg, r) {
      RouteClean(cfg, r);
    }
  }

  lemma ToolsClean(cfg: Config)
    ensures CanExecuteTools(PlacementIssues(cfg)) && CanExecuteTools(RuleIssues(cfg)) <==>
            forall t :: t in cfg.tools ==> ToolConsistent(cfg, t)
  {
    CollectClean(cfg.tools, (t: PolicyTool) => ToolDomainIssues(cfg, t));
    CollectClean(cfg.tools, (t: PolicyTool) => PermissionIssues(cfg, t));
    forall t ensures CanExecuteTools(ToolDomainIssues(cfg, t)) && CanExecuteTools(PermissionIssues(cfg, t)) <==>
        ToolConsistent(cfg, t) {
      ToolDomainClean(cfg, t);
      PermissionClean(cfg, t);
    }
  }

  lemma DomainToolsClean(cfg: Config)
    ensures CanExecuteTools(ListedToolIssues(cfg)) <==>
            forall d, name :: d in cfg.domains && name in d.toolNames ==> exists t :: t in cfg.tools && t.name == name
  {
    var listed := (d: Domain) => DomainToolIssues(cfg, d);
    CollectClean(cfg.domains, listed);
    forall d ensures CanExecuteTools(listed(d)) <==>
        forall name :: name in d.toolNames ==> exists t :: t in cfg.tools && t.name == name {
      var missing := (name: string) =>
        if exists t :: t in cfg.tools && t.name == name then [] else [Issue(ToolMissing, Fatal, d.name, name)];
      CollectClean(d.toolNames, missing);
      assert forall name :: missing(name) != [] ==> missing(name)[0] in missing(name);
    }
  }

  // ---- the order of the report ----

  /** Whether the sort key of one issue is at most that of another. */
  type KeyOrder = (Issue, Issue) -> bool

  ghost predicate Total(atMost: KeyOrder) {
    && (forall a, b :: atMost(a, b) || atMost(b, a))
    && (forall a, b, c :: atMost(a, b) && atMost(b, c) ==> atMost(a, c))
  }

  /** Different issues have different keys. */
  ghost predicate Strict(atMost: KeyOrder) { forall a, b :: atMost(a, b) && atMost(b, a) ==> a == b }

  ghost predicate InOrder(issues: seq<Issue>, atMost: KeyOrder) {
    forall i, j :: 0 <= i < j < |issues| ==> atMost(issues[i], issues[j])
  }

  function InsertIssue(sorted: seq<Issue>, issue: Issue, atMost: KeyOrder): seq<Issue> {
    if sorted == [] || atMost(sorted[|sorted| - 1], issue) then sorted + [issue]
    else InsertIssue(sorted[..|sorted| - 1], issue, atMost) + [sorted[|sorted| - 1]]
  }

  /** `sorted(issues, key=...)`, which is stable. */
  function SortIssues(issues: seq<Issue>, atMost: KeyOrder): seq<Issue> {
    if issues == [] then [] else InsertIssue(SortIssues(issues[..|issues| - 1], atMost), issues[|issues| - 1], atMost)
  }

  lemma {:induction false} InsertIssueSorts(sorted: seq<Issue>, issue: Issue, atMost: KeyOrder)
    requires Total(atMost) && InOrder(sorted, atMost)
    ensures InOrder(InsertIssue(sorted, issue, atMost), atMost)
    ensures multiset(InsertIssue(sorted, issue, atMost)) == multiset(sorted) + multiset{issue}
    decreases |sorted|
  {
    if sorted != [] {
      var n := |sorted| - 1;
      assert sorted == sorted[..n] + [sorted[n]];
      if atMost(sorted[n], issue) {
        forall i | 0 <= i <= n ensures atMost(sorted[i], issue) { assert i < n ==> atMost(sorted[i], sorted[n]); }
      } else {
        InsertIssueSorts(sorted[..n], issue, atMost);
        var rest := InsertIssue(sorted[..n], issue, atMost);
        forall i | 0 <= i < |rest| ensures atMost(rest[i], sorted[n]) {
          assert rest[i] in multiset(rest);
          assert rest[i] in sorted[..n] || rest[i] == issue;
        }
      }
    }
  }

  lemma {:induction false} SortIssuesSorts(issues: seq<Issue>, atMost: KeyOrder)
    requires Total(atMost)
    ensures InOrder(SortIssues(issues, atMost), atMost) && multiset(SortIssues(issues, atMost)) == multiset(issues)
    decreases |issues|
  {
    if issues != [] {
      var n := |issues| - 1;
      SortIssuesSorts(issues[..n], atMost);
      InsertIssueSorts(SortIssues(issues[..n], atMost), issues[n], atMost);
      assert issues == issues[..n] + [issues[n]];
    }
  }

  lemma {:induction false} OneOrder(a: seq<Issue>, b: seq<Issue>, atMost: KeyOrder)
    requires Total(atMost) && Strict(atMost) && InOrder(a, atMost) && InOrder(b, atMost) && multiset(a) == multiset(b)
    ensures a == b
    decreases |a|
  {
    if a == [] {
      assert |b| == |multiset(b)| == 0;
    } else {
      assert a == [a[0]] + a[1..];
      assert a[0] in multiset(b);
      assert b == [b[0]] + b[1..];
      assert b[0] in multiset(a);
      assert atMost(a[0], b[0]) && atMost(b[0], a[0]);
      assert multiset(a[1..]) == multiset(a) - multiset{a[0]} == multiset(b[1..]);
      OneOrder(a[1..], b[1..], atMost);
    }
  }

  /** The sorted report does not depend on the order in which its issues were found, nor does the
      decision; that a report is sorted keeps all its issues. */
  lemma ReportIsDetermined(found: seq<Issue>, other: seq<Issue>, atMost: KeyOrder)
    requires Total(atMost) && multiset(found) == multiset(other)
    ensures InOrder(SortIssues(found, atMost), atMost) && multiset(SortIssues(found, atMost)) == multiset(found)
    ensures Strict(atMost) ==> SortIssues(found, atMost) == SortIssues(other, atMost)
    ensures CanExecuteTools(SortIssues(found, atMost)) <==> CanExecuteTools(other)
  {
    SortIssuesSorts(found, atMost);
    SortIssuesSorts(other, atMost);
    var sorted := SortIssues(found, atMost);
    if Strict(atMost) { OneOrder(sorted, SortIssues(other, atMost), atMost); }
    hide Total, InOrder, Strict, SortIssues;
    assert forall issue :: issue in sorted <==> issue in multiset(sorted);
    assert forall issue :: issue in other <==> issue in multiset(other);
  }

  // ---- the validator as it runs ----

  /** One loop over one collection of the configuration. */
  method Gather<A>(before: seq<Issue>, xs: seq<A>, check: A -> seq<Issue>) returns (issues: seq<Issue>)
    ensures issues == before + Collect(xs, check)
  {
    issues := before;
    for i := 0 to |xs|
      invariant issues == before + Collect(xs[..i], check)
    {
      assert xs[..i + 1][..i] == xs[..i];
      issues := issues + check(xs[i]);
    }
    assert xs[..|xs|] == xs;
  }

  method ValidateModels(cfg: Config, before: seq<Issue>) returns (issues: seq<Issue>)
    ensures issues == before + ModelReport(cfg)
  {
    hide UnlessIn, IntentModelIssues, PluginPolicyIssues, Collect;
    var m := cfg.models;
    issues := before + UnlessIn(m.fallback, m.profiles, MissingFallbackProfile);
    issues := Gather(issues, m.fallbackOrder, (p: string) => UnlessIn(p, m.profiles, InvalidFallbackProfile));
    assert issues == before + FallbackIssues(cfg);
    issues := Gather(issues, m.budgets, (p: string) => UnlessIn(p, m.profiles, InvalidContextBudgetProfile));
    issues := Gather(issues, m.profiles, (p: string) => UnlessIn(p, m.budgets, MissingContextBudget));
    assert issues == before + FallbackIssues(cfg) + BudgetIssues(cfg);
    issues := Gather(issues, cfg.intents, (i: string) => IntentModelIssues(cfg, i));
    issues := Gather(issues, m.intentProfiles, (x: ProfileMapping) => UnlessIn(x.intent, cfg.intents, UnknownIntent));
    assert issues == before + FallbackIssues(cfg) + BudgetIssues(cfg) + MappingIssues(cfg);
    issues := issues + PluginPolicyIssues(cfg);
  }

  method ValidatePolicyConsistency(cfg: Config, atMost: KeyOrder) returns (issues: seq<Issue>)
    requires Total(atMost)
    ensures multiset(issues) == multiset(Report(cfg)) && InOrder(issues, atMost)
    ensures CanExecuteTools(issues) <==> Consistent(cfg)
  {
    hide Total, InOrder, Strict;
    var found := CollectIssues(cfg);
    ReportIsExact(cfg);
    ReportIsDetermined(found, found, atMost);
    issues := SortIssues(found, atMost);
  }

  method CollectIssues(cfg: Config) returns (issues: seq<Issue>)
    ensures issues == Report(cfg)
  {
    issues := Gather([], Names(cfg.tools), (name: string) => NamedIssues(cfg, name));
    assert issues == CollisionIssues(cfg);
    issues := Gather(issues, cfg.routes, (r: Route) => RouteIssues(cfg, r));
    issues := Gather(issues, cfg.domains, (d: Domain) => DomainToolIssues(cfg, d));
    issues := Gather(issues, cfg.tools, (t: PolicyTool) => ToolDomainIssues(cfg, t));
    issues := Gather(issues, cfg.routes, (r: Route) => RouteCapabilityIssues(cfg, r));
    issues := Gather(issues, cfg.tools, (t: PolicyTool) => PermissionIssues(cfg, t));
    issues := Gather(issues, cfg.permissions, (p: PolicyPermission) => StaleIssues(cfg, p));
    assert issues == ToolReport(cfg);
    issues := ValidateModels(cfg, issues);
  }
}
