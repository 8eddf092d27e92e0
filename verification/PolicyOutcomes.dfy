/** Every issue of the cross-layer report and when it is reported: an independent statement of what
    each code means (core/policy_consistency.py:278-581). */
module PolicyOutcomes {
  import opened Options
  import opened PolicyConsistency

  // ---- lookups ----

  /** In a dictionary built from pairs, the last pair with a name counts. */
  ghost predicate IsLast<A>(xs: seq<A>, named: A -> bool, x: A) {
    exists k :: LastAt(xs, named, x, k)
  }

  ghost predicate LastAt<A>(xs: seq<A>, named: A -> bool, x: A, k: int) {
    0 <= k < |xs| && xs[k] == x && named(x) && forall j :: k < j < |xs| ==> !named(xs[j])
  }

  lemma {:induction false} LastPermission(permissions: seq<PolicyPermission>, name: string)
    ensures match PermissionOf(permissions, name)
            case None => forall p :: p in permissions ==> p.toolName != name
            case Some(p) => IsLast(permissions, (q: PolicyPermission) => q.toolName == name, p)
    decreases |permissions|
  {
    if permissions != [] {
      var n := |permissions| - 1;
      if permissions[n].toolName != name {
        LastPermission(permissions[..n], name);
        LastOfMore(permissions, (q: PolicyPermission) => q.toolName == name);
      } else {
        assert LastAt(permissions, (q: PolicyPermission) => q.toolName == name, permissions[n], n);
      }
    }
  }

  lemma {:induction false} LastDomain(domains: seq<Domain>, name: string)
    ensures match DomainOf(domains, name)
            case None => forall d :: d in domains ==> d.name != name
            case Some(d) => IsLast(domains, (e: Domain) => e.name == name, d)
    decreases |domains|
  {
    if domains != [] {
      var n := |domains| - 1;
      if domains[n].name != name {
        LastDomain(domains[..n], name);
        LastOfMore(domains, (e: Domain) => e.name == name);
      } else {
        assert LastAt(domains, (e: Domain) => e.name == name, domains[n], n);
      }
    }
  }

  lemma {:induction false} LastProfile(mappings: seq<ProfileMapping>, intent: string)
    ensures match ProfileOf(mappings, intent)
            case None => forall m :: m in mappings ==> m.intent != intent
            case Some(p) => exists m: ProfileMapping :: m.profile == p
                              && IsLast(mappings, (n: ProfileMapping) => n.intent == intent, m)
    decreases |mappings|
  {
    if mappings != [] {
      var n := |mappings| - 1;
      var named := (m: ProfileMapping) => m.intent == intent;
      if mappings[n].intent != intent {
        LastProfile(mappings[..n], intent);
        LastOfMore(mappings, named);
        if ProfileOf(mappings[..n], intent).Some? {
          var m: ProfileMapping :| m.profile == ProfileOf(mappings, intent).value && IsLast(mappings[..n], named, m);
          assert IsLast(mappings, named, m);
        }
      } else {
        assert LastAt(mappings, named, mappings[n], n);
      }
    }
  }

  lemma LastOfMore<A>(xs: seq<A>, named: A -> bool)
    requires xs != [] && !named(xs[|xs| - 1])
    ensures forall x :: IsLast(xs[..|xs| - 1], named, x) ==> IsLast(xs, named, x)
    ensures (forall x :: x in xs[..|xs| - 1] ==> !named(x)) ==> forall x :: x in xs ==> !named(x)
  {
    assert xs == xs[..|xs| - 1] + [xs[|xs| - 1]];
    var rest := xs[..|xs| - 1];
    assert forall j :: 0 <= j < |rest| ==> rest[j] == xs[j];
    forall x | IsLast(rest, named, x) ensures IsLast(xs, named, x) {
      var k :| LastAt(rest, named, x, k);
      assert LastAt(xs, named, x, k);
    }
  }

  lemma {:induction false} FirstKept<A>(xs: seq<A>, keep: A -> bool) returns (k: nat)
    requires Filter(xs, keep) != []
    ensures k < |xs| && keep(xs[k]) && (forall j :: 0 <= j < k ==> !keep(xs[j])) && Filter(xs, keep)[0] == xs[k]
    decreases |xs|
  {
    var n := |xs| - 1;
    if Filter(xs[..n], keep) != [] {
      k := FirstKept(xs[..n], keep);
      assert forall j :: 0 <= j < n ==> xs[..n][j] == xs[j];
    } else {
      FilterIn(xs[..n], keep);
      k := n;
      assert forall j :: 0 <= j < n ==> xs[..n][j] == xs[j];
    }
  }

  lemma {:induction false} CollectIn<A>(xs: seq<A>, issues: A -> seq<Issue>, i: Issue)
    ensures i in Collect(xs, issues) <==> exists x :: x in xs && i in issues(x)
    decreases |xs|
  {
    if xs != [] {
      var n := |xs| - 1;
      CollectIn(xs[..n], issues, i);
      assert forall x :: x in xs <==> x in xs[..n] || x == xs[n] by { assert xs == xs[..n] + [xs[n]]; }
    }
  }

  // ---- tools, routes and domains ----

  /** Two tools share a name. */
  ghost predicate Collides(cfg: Config, i: Issue) {
    && i == Issue(ToolCollision, Fatal, i.subject, "")
    && exists a, b :: 0 <= a < b < |cfg.tools| && cfg.tools[a].name == i.subject && cfg.tools[b].name == i.subject
  }

  lemma CollisionsAre(cfg: Config, i: Issue)
    ensures i in CollisionIssues(cfg) <==> Collides(cfg, i)
  {
    CollectIn(Names(cfg.tools), (name: string) => NamedIssues(cfg, name), i);
    NamesIn(cfg.tools);
    FilterAtMostOne(cfg.tools, (t: PolicyTool) => t.name == i.subject);
    if Collides(cfg, i) {
      assert i.subject in Names(cfg.tools) && i in NamedIssues(cfg, i.subject);
    }
    hide Names;
  }

  predicate Live(cfg: Config, intent: string) { intent in cfg.intents && intent in cfg.activeIntents }

  ghost predicate FirstOwner(domains: seq<Domain>, intent: string, k: int) {
    && 0 <= k < |domains| && intent in domains[k].intents
    && forall j :: 0 <= j < k ==> intent !in domains[j].intents
  }

  /** No domain owns an intent, or the first to own it and every other is disabled. */
  ghost predicate Unserved(cfg: Config, intent: string, i: Issue) {
    || (i == Issue(MissingDomain, Fatal, intent, "") && forall d :: d in cfg.domains ==> intent !in d.intents)
    || (&& i.code == DisabledDomain && i.severity == Fatal && i.subject == intent
        && (exists k :: FirstOwner(cfg.domains, intent, k) && cfg.domains[k].name == i.related)
        && forall d :: d in cfg.domains && intent in d.intents ==> !d.enabled)
  }

  /** Two enabled domains own an intent, or one that does lacks a capability. */
  ghost predicate Misserved(cfg: Config, route: Route, i: Issue) {
    || (&& i == Issue(AmbiguousDomain, Fatal, route.intent, "")
        && exists a, b :: 0 <= a < b < |cfg.domains| && Serves(cfg.domains[a], route.intent)
             && Serves(cfg.domains[b], route.intent))
    || (&& i.code == DomainCapabilityMissing && i.severity == Fatal && i.related in route.capabilities
        && exists d :: d in cfg.domains && d.name == i.subject && Serves(d, route.intent)
             && i.related !in d.capabilities)
  }

  ghost predicate Misrouted(cfg: Config, route: Route, i: Issue) {
    || (i == Issue(UnknownIntent, Fatal, route.intent, "") && route.intent !in cfg.intents)
    || (&& i == Issue(InactiveIntentRoute, Warning, route.intent, "")
        && route.intent in cfg.intents && route.intent !in cfg.activeIntents)
    || (Live(cfg, route.intent) && (Unserved(cfg, route.intent, i) || Misserved(cfg, route, i)))
  }

  lemma OwnersAre(cfg: Config, intent: string)
    ensures var owners := Filter(cfg.domains, (d: Domain) => intent in d.intents);
            if owners == [] then forall d :: d in cfg.domains ==> intent !in d.intents
            else forall k :: FirstOwner(cfg.domains, intent, k) ==> cfg.domains[k].name == owners[0].name
    ensures var owners := Filter(cfg.domains, (d: Domain) => intent in d.intents);
            owners != [] ==> exists k :: FirstOwner(cfg.domains, intent, k)
  {
    var owns := (d: Domain) => intent in d.intents;
    FilterIn(cfg.domains, owns);
    if Filter(cfg.domains, owns) != [] {
      var k := FirstKept(cfg.domains, owns);
      hide Filter;
      assert FirstOwner(cfg.domains, intent, k);
      forall j | FirstOwner(cfg.domains, intent, j) ensures j == k {}
    } else {
      forall d | d in cfg.domains ensures intent !in d.intents {
        var k :| 0 <= k < |cfg.domains| && cfg.domains[k] == d;
        assert !owns(cfg.domains[k]);
      }
    }
  }

  lemma UnservedIssue(cfg: Config, route: Route)
    requires Live(cfg, route.intent) && Serving(cfg, route.intent) == []
    ensures var owners := Filter(cfg.domains, (d: Domain) => route.intent in d.intents);
            RouteIssues(cfg, route) ==
            [if owners == [] then Issue(MissingDomain, Fatal, route.intent, "")
             else Issue(DisabledDomain, Fatal, route.intent, owners[0].name)]
  {
    hide Filter, Collect;
  }

  lemma OwnersDisabled(cfg: Config, intent: string)
    requires Serving(cfg, intent) == []
    ensures forall d :: d in cfg.domains && intent in d.intents ==> !d.enabled
  {
    ServingIs(cfg, intent);
    hide Serving;
    assert forall d :: d in cfg.domains ==> !Serves(d, intent);
  }

  lemma UnservedAre(cfg: Config, route: Route, i: Issue)
    requires Live(cfg, route.intent) && Serving(cfg, route.intent) == []
    ensures i in RouteIssues(cfg, route) <==> Unserved(cfg, route.intent, i)
  {
    UnservedIssue(cfg, route);
    OwnersAre(cfg, route.intent);
    OwnersDisabled(cfg, route.intent);
    hide Filter, Serving, RouteIssues;
    if exists k :: FirstOwner(cfg.domains, route.intent, k) {
      var k :| FirstOwner(cfg.domains, route.intent, k);
      assert cfg.domains[k] in cfg.domains;
    }
    hide FirstOwner;
  }

  /** The capabilities of a route that one of its domains lacks. */
  function Lacked(route: Route, d: Domain): seq<Issue> {
    Collect(route.capabilities, (c: string) => DomainLacks(d, c))
  }

  lemma LackedAre(route: Route, d: Domain, i: Issue)
    ensures i in Lacked(route, d) <==>
            && i == Issue(DomainCapabilityMissing, Fatal, d.name, i.related) && i.related in route.capabilities
            && i.related !in d.capabilities
  {
    CollectIn(route.capabilities, (c: string) => DomainLacks(d, c), i);
  }

  lemma ServedIssues(cfg: Config, route: Route)
    requires Live(cfg, route.intent) && Serving(cfg, route.intent) != []
    ensures RouteIssues(cfg, route) ==
            (if |Serving(cfg, route.intent)| > 1 then [Issue(AmbiguousDomain, Fatal, route.intent, "")] else [])
            + Collect(Serving(cfg, route.intent), (d: Domain) => Lacked(route, d))
  {
    var owners := Filter(cfg.domains, (d: Domain) => route.intent in d.intents);
    assert owners != [] by { ServingIs(cfg, route.intent); }
    hide Filter;
    SameCollect(Serving(cfg, route.intent), (d: Domain) => Lacked(route, d),
                (d: Domain) => Collect(route.capabilities, (c: string) => DomainLacks(d, c)));
    hide Collect, Lacked;
  }

  lemma {:induction false} SameCollect<A>(xs: seq<A>, f: A -> seq<Issue>, g: A -> seq<Issue>)
    requires forall x :: f(x) == g(x)
    ensures Collect(xs, f) == Collect(xs, g)
    decreases |xs|
  {
    if xs != [] { SameCollect(xs[..|xs| - 1], f, g); }
  }

  lemma MisservedAre(cfg: Config, route: Route, i: Issue)
    requires Live(cfg, route.intent) && Serving(cfg, route.intent) != []
    ensures i in RouteIssues(cfg, route) <==> Misserved(cfg, route, i)
  {
    var serving := Serving(cfg, route.intent);
    ServedIssues(cfg, route);
    ServingIs(cfg, route.intent);
    CollectIn(serving, (d: Domain) => Lacked(route, d), i);
    forall d ensures i in Lacked(route, d) <==>
        && i == Issue(DomainCapabilityMissing, Fatal, d.name, i.related) && i.related in route.capabilities
        && i.related !in d.capabilities {
      LackedAre(route, d, i);
    }
    hide Filter, Collect, Serving, Serves, Lacked, RouteIssues;
  }

  lemma MisroutedAre(cfg: Config, route: Route, i: Issue)
    ensures i in RouteIssues(cfg, route) <==> Misrouted(cfg, route, i)
  {
    if Live(cfg, route.intent) {
      if Serving(cfg, route.intent) == [] { UnservedAre(cfg, route, i); ServedNeeds(cfg, route, i); }
      else { MisservedAre(cfg, route, i); ServedExcludes(cfg, route.intent, i); }
      hide RouteIssues, Unserved, Misserved;
    }
  }

  lemma ServedNeeds(cfg: Config, route: Route, i: Issue)
    requires Serving(cfg, route.intent) == []
    ensures !Misserved(cfg, route, i)
  {
    ServingIs(cfg, route.intent);
    hide Serves, Serving;
    assert forall d :: d in cfg.domains ==> !Serves(d, route.intent);
  }

  lemma ServedExcludes(cfg: Config, intent: string, i: Issue)
    requires Serving(cfg, intent) != []
    ensures !Unserved(cfg, intent, i)
  {
    ServingIs(cfg, intent);
    assert Serving(cfg, intent)[0] in Serving(cfg, intent);
  }

  // ---- tools and capabilities ----

  lemma MisplacedListAre(cfg: Config, i: Issue)
    ensures i in ListedToolIssues(cfg) <==>
            exists d :: d in cfg.domains && ListsUnknown(cfg, d, i)
  {
    CollectIn(cfg.domains, (d: Domain) => DomainToolIssues(cfg, d), i);
    forall d ensures i in DomainToolIssues(cfg, d) <==> ListsUnknown(cfg, d, i) {
      CollectIn(d.toolNames, (name: string) =>
        if exists t :: t in cfg.tools && t.name == name then []
        else [Issue(ToolMissing, Fatal, d.name, name)], i);
    }
    hide Collect, ListsUnknown;
  }

  /** A domain lists a tool that is not there. */
  ghost predicate ListsUnknown(cfg: Config, d: Domain, i: Issue) {
    && i == Issue(ToolMissing, Fatal, d.name, i.related) && i.related in d.toolNames
    && forall t :: t in cfg.tools ==> t.name != i.related
  }

  /** A tool names a domain that is not there; a plugin has no routing metadata, or a capability that
      its domain has not. */
  ghost predicate Misplaced(cfg: Config, t: PolicyTool, i: Issue) {
    || (&& i == Issue(if t.plugin then PluginDomainMissing else UnknownDomain, Fatal, t.name, t.domain)
        && t.domain != "" && DomainOf(cfg.domains, t.domain).None?)
    || (i == Issue(PluginRoutingMissing, Fatal, t.name, "") && t.plugin && !t.routingMetadata)
    || (&& i == Issue(PluginCapabilityMissing, Fatal, t.name, i.related) && t.plugin && i.related in t.capabilities
        && DomainOf(cfg.domains, t.domain).Some?
        && i.related !in DomainOf(cfg.domains, t.domain).value.capabilities)
  }

  lemma MisplacedAre(cfg: Config, t: PolicyTool, i: Issue)
    ensures i in ToolDomainIssues(cfg, t) <==> Misplaced(cfg, t, i)
  {
    var domain := DomainOf(cfg.domains, t.domain);
    if domain.Some? {
      CollectIn(t.capabilities, (c: string) =>
        if c in domain.value.capabilities then [] else [Issue(PluginCapabilityMissing, Fatal, t.name, c)], i);
    }
    hide Collect, DomainOf;
  }

  /** A tool that planning may use for a capability. */
  predicate Usable(cfg: Config, t: PolicyTool, c: string) {
    && t.contextual && c in t.capabilities && t.active && PermissionOf(cfg.permissions, t.name).Some?
    && PermissionOf(cfg.permissions, t.name).value.effect != "deny"
  }

  /** What can be wrong with a required capability: nobody has it; nobody may be used for it, though
      perhaps a plugin that is not active could; two tools may. */
  ghost predicate Uncovered(cfg: Config, intent: string, c: string, i: Issue) {
    var stale := exists t :: t in cfg.tools && t.contextual && c in t.capabilities && t.plugin && !t.active;
    || (i == Issue(UnknownCapability, Fatal, c, intent) && forall t :: t in cfg.tools ==> c !in t.capabilities)
    || (&& i == Issue(if stale then InactivePluginRoute else CapabilityWithoutTool, Fatal, c, intent)
        && forall t :: t in cfg.tools ==> !Usable(cfg, t, c))
    || (&& i == Issue(AmbiguousTool, Fatal, c, intent)
        && exists a, b :: 0 <= a < b < |cfg.tools| && Usable(cfg, cfg.tools[a], c) && Usable(cfg, cfg.tools[b], c))
  }

  lemma UsableAre(cfg: Config, c: string)
    ensures EligibleTools(cfg, c) == [] <==> forall t :: t in cfg.tools ==> !Usable(cfg, t, c)
    ensures |EligibleTools(cfg, c)| > 1 <==>
            exists a, b :: 0 <= a < b < |cfg.tools| && Usable(cfg, cfg.tools[a], c) && Usable(cfg, cfg.tools[b], c)
  {
    var keep := (t: PolicyTool) => Eligible(cfg, t, c);
    FilterIn(cfg.tools, keep);
    FilterAtMostOne(cfg.tools, keep);
    forall t ensures Eligible(cfg, t, c) <==> Usable(cfg, t, c) {}
    hide Filter, Usable, Eligible;
    forall t | t in cfg.tools ensures keep(t) <==> Usable(cfg, t, c) {}
  }

  lemma UncoveredAre(cfg: Config, intent: string, c: string, i: Issue)
    ensures i in CapabilityIssues(cfg, intent, c) <==> Uncovered(cfg, intent, c, i)
  {
    UsableAre(cfg, c);
    hide EligibleTools, Usable;
    var stale := exists t :: t in cfg.tools && t.contextual && c in t.capabilities && t.plugin && !t.active;
    assert stale <==> exists t :: t in cfg.tools && Candidate(t, c) && t.plugin && !t.active;
    hide Candidate;
  }

  lemma UncoveredRoutesAre(cfg: Config, r: Route, i: Issue)
    ensures i in RouteCapabilityIssues(cfg, r) <==>
            Live(cfg, r.intent) && exists c :: c in r.capabilities && Uncovered(cfg, r.intent, c, i)
  {
    CollectIn(r.capabilities, (c: string) => CapabilityIssues(cfg, r.intent, c), i);
    forall c ensures i in CapabilityIssues(cfg, r.intent, c) <==> Uncovered(cfg, r.intent, c, i) {
      UncoveredAre(cfg, r.intent, c, i);
    }
    hide Collect, CapabilityIssues, Uncovered;
  }

  // ---- permission rules ----

  /** What can be wrong with the permission of an active tool. */
  ghost predicate Misruled(cfg: Config, t: PolicyTool, i: Issue) {
    && t.active && i.severity == Fatal && i.subject == t.name
    && match PermissionOf(cfg.permissions, t.name)
       case None => i.related == "" && i.code == if t.plugin then PluginPermissionMissing else MissingPermissionRule
       case Some(p) =>
         var known := p.risk == "low" || p.risk == "medium" || p.risk == "high" || p.risk == "critical";
         || (&& i.code == InvalidPermissionDecision && i.related == p.effect
             && p.effect != "allow" && p.effect != "confirm" && p.effect != "deny")
         || (i.code == UnknownRiskLevel && i.related == p.risk && !known)
         || (i.code == RiskMetadataMismatch && i.related == p.risk && known && t.risk != "" && t.risk != p.risk)
         || (i.code == DeniedToolRoute && i.related == "" && t.contextual && p.effect == "deny")
         || (&& i.code == AutomaticConfirmationConflict && i.related == "" && t.contextual
             && t.routingPermission in cfg.automatic && p.effect == "confirm")
  }

  lemma MisruledAre(cfg: Config, t: PolicyTool, i: Issue)
    ensures i in PermissionIssues(cfg, t) <==> Misruled(cfg, t, i)
  {
    hide PermissionOf;
  }

  /** A rule for a tool that is not there. */
  ghost predicate Stale(cfg: Config, p: PolicyPermission, i: Issue) {
    i == Issue(StalePermissionRule, Fatal, p.toolName, "") && forall t :: t in cfg.tools ==> t.name != p.toolName
  }

  // ---- model profiles ----

  ghost predicate Unlisted(names: seq<string>, known: seq<string>, code: Code, i: Issue) {
    i == Issue(code, Fatal, i.subject, "") && i.subject in names && i.subject !in known
  }

  lemma UnlistedAre(names: seq<string>, known: seq<string>, code: Code, i: Issue)
    ensures i in Collect(names, (n: string) => UnlessIn(n, known, code)) <==> Unlisted(names, known, code, i)
  {
    CollectIn(names, (n: string) => UnlessIn(n, known, code), i);
  }

  /** What can be wrong with the profiles, the order of fallbacks and the budgets. */
  ghost predicate Misprofiled(m: Models, i: Issue) {
    || Unlisted([m.fallback], m.profiles, MissingFallbackProfile, i)
    || Unlisted(m.fallbackOrder, m.profiles, InvalidFallbackProfile, i)
    || Unlisted(m.budgets, m.profiles, InvalidContextBudgetProfile, i)
    || Unlisted(m.profiles, m.budgets, MissingContextBudget, i)
  }

  lemma MisprofiledAre(cfg: Config, i: Issue)
    ensures i in FallbackIssues(cfg) || i in BudgetIssues(cfg) <==> Misprofiled(cfg.models, i)
  {
    var m := cfg.models;
    UnlistedAre(m.fallbackOrder, m.profiles, InvalidFallbackProfile, i);
    UnlistedAre(m.budgets, m.profiles, InvalidContextBudgetProfile, i);
    UnlistedAre(m.profiles, m.budgets, MissingContextBudget, i);
    hide Collect;
  }

  /** What can be wrong with the profile of a known intent. */
  ghost predicate Mismapped(cfg: Config, intent: string, i: Issue) {
    var routed := exists r :: r in cfg.routes && r.intent == intent;
    && i.subject == intent
    && match ProfileOf(cfg.models.intentProfiles, intent)
       case None =>
         || (routed && i.code == MissingIntentModelMapping && i.severity == Fatal && i.related == "")
         || (&& !routed && i.code == IntentModelFallback && i.severity == Warning
             && i.related == cfg.models.fallback && i.related in cfg.models.profiles)
       case Some(profile) =>
         && i.code == UnknownModelProfile && i.severity == Fatal && i.related == profile
         && profile !in cfg.models.profiles
  }

  lemma MismappedAre(cfg: Config, intent: string, i: Issue)
    ensures i in IntentModelIssues(cfg, intent) <==> Mismapped(cfg, intent, i)
  {
    hide ProfileOf;
  }

  /** A comma between any two names. */
  lemma {:induction false} CommaJoinedIs(names: seq<string>, name: string)
    ensures CommaJoined([name]) == name
    ensures names != [] ==> CommaJoined(names + [name]) == CommaJoined(names) + "," + name
    decreases |names|
  {
    if names != [] {
      CommaJoinedIs(names[1..], name);
      assert (names + [name])[1..] == names[1..] + [name];
      if |names| == 1 { assert names[1..] + [name] == [name]; }
    }
  }

  // ---- the whole report ----

  /** What the report can say about tools, routes, domains and permission rules. */
  ghost predicate WrongWithTools(cfg: Config, i: Issue) {
    || Collides(cfg, i)
    || (exists r :: r in cfg.routes && Misrouted(cfg, r, i))
    || (exists d :: d in cfg.domains && ListsUnknown(cfg, d, i))
    || (exists t :: t in cfg.tools && Misplaced(cfg, t, i))
    || (exists r, c :: r in cfg.routes && Live(cfg, r.intent) && c in r.capabilities && Uncovered(cfg, r.intent, c, i))
    || (exists t :: t in cfg.tools && Misruled(cfg, t, i))
    || (exists p :: p in cfg.permissions && Stale(cfg, p, i))
  }

  /** What it can say about model profiles and plugins. */
  ghost predicate WrongWithModels(cfg: Config, i: Issue) {
    || Misprofiled(cfg.models, i)
    || (i.subject in cfg.intents && Mismapped(cfg, i.subject, i))
    || (&& i == Issue(UnknownIntent, Fatal, i.subject, "") && i.subject !in cfg.intents
        && exists m :: m in cfg.models.intentProfiles && m.intent == i.subject)
    || (&& i == Issue(PluginPolicyDisabledActiveTools, Fatal, CommaJoined(cfg.activePlugins), "")
        && !cfg.pluginPolicyEnabled && cfg.activePlugins != [])
  }

  lemma ToolReportSays(cfg: Config, i: Issue)
    ensures i in ToolReport(cfg) <==> WrongWithTools(cfg, i)
  {
    CollisionsAre(cfg, i);
    CollectIn(cfg.routes, (r: Route) => RouteIssues(cfg, r), i);
    MisplacedListAre(cfg, i);
    CollectIn(cfg.tools, (t: PolicyTool) => ToolDomainIssues(cfg, t), i);
    CollectIn(cfg.routes, (r: Route) => RouteCapabilityIssues(cfg, r), i);
    CollectIn(cfg.tools, (t: PolicyTool) => PermissionIssues(cfg, t), i);
    CollectIn(cfg.permissions, (p: PolicyPermission) => StaleIssues(cfg, p), i);
    forall r ensures i in RouteIssues(cfg, r) <==> Misrouted(cfg, r, i) { MisroutedAre(cfg, r, i); }
    forall t ensures i in ToolDomainIssues(cfg, t) <==> Misplaced(cfg, t, i) { MisplacedAre(cfg, t, i); }
    forall r ensures i in RouteCapabilityIssues(cfg, r) <==>
        Live(cfg, r.intent) && exists c :: c in r.capabilities && Uncovered(cfg, r.intent, c, i) {
      UncoveredRoutesAre(cfg, r, i);
    }
    forall t ensures i in PermissionIssues(cfg, t) <==> Misruled(cfg, t, i) { MisruledAre(cfg, t, i); }
    forall p ensures i in StaleIssues(cfg, p) <==> Stale(cfg, p, i) {}
    hide Collect, RouteIssues, ToolDomainIssues, RouteCapabilityIssues, PermissionIssues, StaleIssues, Misrouted;
    hide Misplaced, Uncovered, Misruled, Stale, Collides, CollisionIssues, ListsUnknown, ListedToolIssues, Live;
  }

  lemma ModelReportSays(cfg: Config, i: Issue)
    ensures i in ModelReport(cfg) <==> WrongWithModels(cfg, i)
  {
    MisprofiledAre(cfg, i);
    CollectIn(cfg.intents, (n: string) => IntentModelIssues(cfg, n), i);
    CollectIn(cfg.models.intentProfiles, (m: ProfileMapping) => UnlessIn(m.intent, cfg.intents, UnknownIntent), i);
    forall n ensures i in IntentModelIssues(cfg, n) <==> Mismapped(cfg, n, i) { MismappedAre(cfg, n, i); }
    hide Collect, FallbackIssues, BudgetIssues, IntentModelIssues, Misprofiled;
  }

  /** The report names exactly what is wrong, each with its code, severity, subject and the name it
      is related to. */
  lemma ReportSays(cfg: Config, i: Issue)
    ensures i in Report(cfg) <==> WrongWithTools(cfg, i) || WrongWithModels(cfg, i)
  {
    ToolReportSays(cfg, i);
    ModelReportSays(cfg, i);
    hide ToolReport, ModelReport, WrongWithTools, WrongWithModels;
  }
}
