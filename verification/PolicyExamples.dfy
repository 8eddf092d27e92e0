/** Small configurations with a clean report: what the report rules out can be ruled out, and what
    it leaves open does happen (core/production_snapshot.py:308-349, core/tool_planner.py:130-162). */
module PolicyExamples {
  import opened Options
  import opened Strings
  import opened PolicyConsistency
  import opened ToolPlanner
  import opened PolicySoundness
  import G = PermissionGate

  const TOOL := "one_tool"

  const PROFILE := "fast"

  /** The intents with a route of one capability used below. */
  predicate Simple(intent: Intent) { intent == ProjectSearch || intent == CodeReview }

  function Capability(intent: Intent): string
    requires Simple(intent)
  {
    if intent == ProjectSearch then "project.search" else "git.diff"
  }

  function AllMapped(): seq<ProfileMapping> {
    seq(|INTENTS|, i requires 0 <= i < |INTENTS| => ProfileMapping(IntentName(INTENTS[i]), PROFILE))
  }

  /** One built-in tool for one intent, with a permission as written and the effect of its rule. */
  function OneTool(intent: Intent, permission: string, effect: G.Effect, x: Casing): Sources
    requires Simple(intent)
  {
    Sources([TOOL], map[TOOL := Metadata(permission, [Capability(intent)])], [],
            G.Policy(map[TOOL := G.Rule(effect, G.Low, false)], 1), [TOOL],
            [Domain("project", [IntentName(intent)], [Capability(intent)], [TOOL], true)], {"READ"},
            Models([PROFILE], PROFILE, [], [PROFILE], AllMapped()), false, x)
  }

  lemma OneToolIs(intent: Intent, permission: string, effect: G.Effect, x: Casing)
    requires x.LikePython() && Simple(intent)
    ensures var s := OneTool(intent, permission, effect, x);
            && s.Valid() && ActivePlugins(s) == []
            && NormalizedTools(s) ==
               [PolicyTool(TOOL, false, "", [Capability(intent)], permission, "", true, true, true)]
            && Permissions(s) == [PolicyPermission(TOOL, EffectName(effect), "low")]
  {
    var s := OneTool(intent, permission, effect, x);
    assert s.ruleNames == [TOOL];
    assert forall name :: name in s.ruleNames <==> name == TOOL;
    assert Filter(s.plugins, (p: PluginTool) => p.active) == [];
  }

  lemma RouteOfSimple(intent: Intent)
    requires Simple(intent)
    ensures intent in ROUTED && IntentRoute(intent) == [Capability(intent)]
  {
    assert ROUTED[1] == ProjectSearch && ROUTED[4] == CodeReview;
  }

  /** Another route needs another capability. */
  lemma OtherRouteNeedsMore(intent: Intent, other: Intent) returns (c: string)
    requires Simple(intent) && other in ROUTED && other != intent
    ensures c in IntentRoute(other) && c != Capability(intent)
  {
    var route := IntentRoute(other);
    if intent == ProjectSearch {
      c := route[0];
      assert c[0] != 'p';
    } else if other == DocumentationUpdate {
      c := route[1];
      assert c[0] == 'd';
    } else {
      c := route[0];
      assert |c| != 8 || c[0] != 'g';
    }
  }

  lemma OnlyOneIsActive(intent: Intent, permission: string, effect: G.Effect, x: Casing, other: Intent)
    requires x.LikePython() && Simple(intent)
    ensures ActiveIntent(OneTool(intent, permission, effect, x), other) <==> other == intent
  {
    OneToolIs(intent, permission, effect, x);
    RouteOfSimple(intent);
    var s := OneTool(intent, permission, effect, x);
    var tools := NormalizedTools(s);
    hide NormalizedTools, IntentRoute, OneTool, Capability;
    if other == intent {
      assert Candidate(tools[0], Capability(intent));
    } else if other in ROUTED {
      var c := OtherRouteNeedsMore(intent, other);
      assert !Configured(tools, c);
    }
  }

  lemma NamesDiffer(intent: Intent, other: Intent)
    requires Simple(intent) && other != intent
    ensures IntentName(other) != IntentName(intent)
  {
    assert IntentName(other)[0] != IntentName(intent)[0];
  }

  /** With one domain and one tool, a route of one capability is consistent. */
  lemma SingleRoute(cfg: Config, intent: string, capability: string)
    requires intent in cfg.intents && |cfg.domains| == 1 && |cfg.tools| == 1
    requires Serves(cfg.domains[0], intent) && cfg.domains[0].capabilities == [capability]
    requires Eligible(cfg, cfg.tools[0], capability)
    ensures RouteConsistent(cfg, Route(intent, [capability]))
  {
    hide Eligible, Serves;
    assert cfg.domains[0] in cfg.domains;
    assert ExactlyOneEligible(cfg, capability);
  }

  lemma IntentIsKnown(s: Sources, intent: Intent)
    requires s.Valid()
    ensures IntentName(intent) in SnapshotConfig(s).intents
  {
    hide NormalizedTools, Permissions, ActiveIntent, IntentRoute, IntentName;
    EveryIntentListed(intent);
    var at :| 0 <= at < |INTENTS| && INTENTS[at] == intent;
    assert SnapshotConfig(s).intents[at] == IntentName(intent);
  }

  lemma OwnRoute(intent: Intent, permission: string, effect: G.Effect, x: Casing)
    requires x.LikePython() && Simple(intent) && effect != G.Deny
    ensures RouteConsistent(SnapshotConfig(OneTool(intent, permission, effect, x)),
                            Route(IntentName(intent), IntentRoute(intent)))
  {
    var cfg := SnapshotConfig(OneTool(intent, permission, effect, x));
    OneToolIs(intent, permission, effect, x);
    RouteOfSimple(intent);
    IntentIsKnown(OneTool(intent, permission, effect, x), intent);
    hide ActiveIntent, NormalizedTools, Permissions, IntentRoute, Capability, IntentName, ActivePlugins;
    hide RouteConsistent;
    assert Eligible(cfg, cfg.tools[0], Capability(intent));
    SingleRoute(cfg, IntentName(intent), Capability(intent));
  }

  lemma OtherRoute(intent: Intent, permission: string, effect: G.Effect, x: Casing, other: Intent)
    requires x.LikePython() && Simple(intent) && other != intent
    ensures RouteConsistent(SnapshotConfig(OneTool(intent, permission, effect, x)),
                            Route(IntentName(other), IntentRoute(other)))
  {
    var s := OneTool(intent, permission, effect, x);
    OneToolIs(intent, permission, effect, x);
    IntentIsKnown(s, other);
    NamesDiffer(intent, other);
    hide ActiveIntent, IntentRoute, NormalizedTools, Permissions, IntentName, Capability, OneTool;
    forall i ensures ActiveIntent(s, i) <==> i == intent { OnlyOneIsActive(intent, permission, effect, x, i); }
    assert IntentName(other) !in SnapshotConfig(s).activeIntents;
  }

  lemma {:induction false} MappedToProfile(mappings: seq<ProfileMapping>, intent: string)
    requires forall m :: m in mappings ==> m.profile == PROFILE
    requires exists m :: m in mappings && m.intent == intent
    ensures ProfileOf(mappings, intent) == Some(PROFILE)
    decreases |mappings|
  {
    var n := |mappings| - 1;
    var m :| m in mappings && m.intent == intent;
    assert mappings == mappings[..n] + [mappings[n]];
    if mappings[n].intent != intent { MappedToProfile(mappings[..n], intent); }
  }

  lemma OneModel(intent: Intent, permission: string, effect: G.Effect, x: Casing)
    requires x.LikePython() && Simple(intent)
    ensures ModelsConsistent(SnapshotConfig(OneTool(intent, permission, effect, x)))
  {
    OneToolIs(intent, permission, effect, x);
    var cfg := SnapshotConfig(OneTool(intent, permission, effect, x));
    hide NormalizedTools, Permissions, ActiveIntent, Capability, IntentRoute, IntentName, ProfileOf;
    forall i | i in cfg.intents ensures ProfileOf(cfg.models.intentProfiles, i) == Some(PROFILE) {
      var k :| 0 <= k < |cfg.intents| && cfg.intents[k] == i;
      assert cfg.models.intentProfiles[k] == ProfileMapping(i, PROFILE);
      MappedToProfile(cfg.models.intentProfiles, i);
    }
    forall m | m in cfg.models.intentProfiles ensures m.intent in cfg.intents {
      var k :| 0 <= k < |INTENTS| && cfg.models.intentProfiles[k] == m;
      assert cfg.intents[k] == m.intent;
    }
  }

  lemma OneToolConsistent(intent: Intent, permission: string, effect: G.Effect, x: Casing)
    requires x.LikePython() && Simple(intent) && effect != G.Deny && (effect == G.Confirm ==> permission != "READ")
    ensures ToolsConsistent(SnapshotConfig(OneTool(intent, permission, effect, x)))
  {
    var cfg := SnapshotConfig(OneTool(intent, permission, effect, x));
    OneToolIs(intent, permission, effect, x);
    forall r | r in cfg.routes ensures RouteConsistent(cfg, r) {
      var k :| 0 <= k < |ROUTED| && cfg.routes[k] == r;
      if ROUTED[k] == intent {
        OwnRoute(intent, permission, effect, x);
      } else {
        OtherRoute(intent, permission, effect, x, ROUTED[k]);
      }
    }
    hide NormalizedTools, Permissions, ActiveIntent, RouteConsistent, Capability, IntentName, IntentRoute;
    assert cfg.permissions[0].toolName == cfg.tools[0].name && cfg.tools[0] in cfg.tools;
    assert EffectName(effect) != "deny" by { assert EffectName(effect)[0] != 'd'; }
    assert effect == G.Allow ==> EffectName(effect) != "confirm";
    assert ToolConsistent(cfg, cfg.tools[0]);
  }

  lemma OneToolListed(intent: Intent, permission: string, effect: G.Effect, x: Casing)
    requires x.LikePython() && Simple(intent) && effect != G.Deny
    ensures Lists(OneTool(intent, permission, effect, x), [TOOL])
    ensures EffectiveNames(OneTool(intent, permission, effect, x)) == {TOOL}
  {
    var s := OneTool(intent, permission, effect, x);
    OneToolIs(intent, permission, effect, x);
    hide NormalizedTools, Permissions, Capability;
    var t := NormalizedTools(s)[0];
    assert t in NormalizedTools(s) && Effective(s, t);
    assert EffectiveNames(s) == {TOOL};
  }

  /** Each of these has a clean report and its intent active, whatever its tool's rule allows or
      confirms, as long as no confirmed permission is automatic as written. */
  lemma CleanReportExists(intent: Intent, permission: string, effect: G.Effect, x: Casing)
    requires x.LikePython() && Simple(intent) && effect != G.Deny && (effect == G.Confirm ==> permission != "READ")
    ensures var s := OneTool(intent, permission, effect, x);
            && s.Valid() && Lists(s, [TOOL]) && EffectiveNames(s) == {TOOL}
            && ActiveIntent(s, intent) && CanExecuteTools(Report(SnapshotConfig(s)))
  {
    OneToolIs(intent, permission, effect, x);
    OneToolConsistent(intent, permission, effect, x);
    OneModel(intent, permission, effect, x);
    OneToolListed(intent, permission, effect, x);
    OnlyOneIsActive(intent, permission, effect, x, intent);
    var cfg := SnapshotConfig(OneTool(intent, permission, effect, x));
    assert cfg.activePlugins == [];
    hide ToolsConsistent, ModelsConsistent, Report, SnapshotConfig, Lists, ActiveIntent, EffectiveNames, OneTool;
    ReportIsExact(cfg);
  }

  lemma DescribedTool(intent: Intent, permission: string, effect: G.Effect, x: Casing)
    requires x.LikePython() && Simple(intent)
    ensures Described([TOOL], OneTool(intent, permission, effect, x).config, x) ==
            [Descriptor(TOOL, x.upper(Strip(permission)), [Capability(intent)])]
  {
    var c := Capability(intent);
    RouteOfSimple(intent);
    RoutesAreNormal(intent, c, x);
    ValidNameIsSolid(TOOL);
    hide Strip, Capability;
    OneProvided(c, x);
  }

  lemma OneProvided(c: string, x: Casing)
    requires Normal(c, x)
    ensures Provided([c], x) == [c]
  {
    hide Strip;
    assert [c][..0] == [];
    assert Provided([], x) == [];
  }

  /** Code review is active under a clean report, and yet the review of staged changes cannot be
      planned. */
  lemma StagedReviewCanBeMissing(i: Interpretation, x: Casing)
    requires i.stagedOnly && x.LikePython()
    ensures var s := OneTool(CodeReview, "READ", G.Allow, x);
            && Lists(s, [TOOL]) && ActiveIntent(s, CodeReview) && CanExecuteTools(Report(SnapshotConfig(s)))
            && LacksCapability(CodeReview, i, Described([TOOL], s.config, x))
  {
    CleanReportExists(CodeReview, "READ", G.Allow, x);
    DescribedTool(CodeReview, "READ", G.Allow, x);
    OnlyDiff(x.upper(Strip("READ")), i);
    hide Report, SnapshotConfig, ActiveIntent, Lists, Described, LacksCapability, CanExecuteTools, Strip;
  }

  lemma OnlyDiff(permission: string, i: Interpretation)
    requires i.stagedOnly
    ensures LacksCapability(CodeReview, i, [Descriptor(TOOL, permission, [Capability(CodeReview)])])
  {
    var catalog := [Descriptor(TOOL, permission, [Capability(CodeReview)])];
    assert |"git.diff.cached"| != |Capability(CodeReview)|;
    StagedReviewIsUnchecked(catalog, i);
    hide LacksCapability;
  }

  lemma ConfirmedToolAsks(env: G.Env, rule: G.Rule, args: G.Args)
    requires env.policy.Some? && env.policy.value.rules == map[TOOL := rule] && TOOL in env.registry
    requires rule.effect == G.Confirm
    ensures G.Execute(env, G.Gate({}, []), G.Request(TOOL, args, None)).1.code == G.ConfirmationRequired
  {
    assert G.ValidToolName(TOOL);
  }

  /** A name without blanks around it, and the same with one. */
  lemma PaddedSpelling(name: string)
    requires name != "" && StartsSolid(name) && EndsSolid(name)
    ensures Strip(name) == Strip(name + " ") == Strip(" " + name) == name
    ensures name + " " != name && " " + name != name
  {
    hide LStrip, RStrip;
    SolidIsStripped(name);
    StripPadded("", name, " ");
    StripPadded(" ", name, "");
    assert "" + name + " " == name + " " && " " + name + "" == " " + name;
    assert |name + " "| == |" " + name| == |name| + 1;
  }

  /** Every automatic permission has such spellings: with a blank, and with other letters for its
      capitals. */
  lemma PermissionHasOtherSpellings(name: string, other: string, x: Casing)
    requires x.LikePython() && name != "" && StartsSolid(name) && EndsSolid(name) && Ascii(name)
    requires Ascii(other) && StartsSolid(other) && EndsSolid(other) && UpperAscii(other) == UpperAscii(name) == name
    ensures x.upper(Strip(name + " ")) == name && name + " " != name
    ensures x.upper(Strip(other)) == name
  {
    PaddedSpelling(name);
    SolidIsStripped(other);
    hide Strip, UpperAscii, Ascii;
  }

  lemma ReadIsUpper()
    ensures StartsSolid("READ") && EndsSolid("READ") && Ascii("READ") && UpperAscii("READ") == "READ"
  {
  }

  lemma ReadInLowerCase()
    ensures StartsSolid("read") && EndsSolid("read") && Ascii("read") && UpperAscii("read") == "READ"
    ensures "read" != "READ"
  {
    assert "read"[0] != "READ"[0];
  }

  /** The shipped automatic permission has both. */
  lemma ReadHasOtherSpellings(x: Casing)
    requires x.LikePython()
    ensures x.upper(Strip("READ" + " ")) == "READ" && "READ" + " " != "READ"
    ensures x.upper(Strip("read")) == "READ" && "read" != "READ"
  {
    ReadIsUpper();
    ReadInLowerCase();
    hide Strip, UpperAscii, Ascii, StartsSolid, EndsSolid;
    PermissionHasOtherSpellings("READ", "read", x);
  }

  /** A permission that is not written as the planner reads it escapes the report: it is clean,
      the planner takes the step's permission as automatic, and the executor asks for
      confirmation. */
  lemma MisspelledPermissionEscapes(permission: string, env: G.Env, args: G.Args, x: Casing)
    requires x.LikePython() && x.upper(Strip(permission)) == "READ" && permission != "READ"
    requires env.policy == Some(OneTool(ProjectSearch, permission, G.Confirm, x).policy)
    requires env.registry.Keys == {TOOL}
    ensures var s := OneTool(ProjectSearch, permission, G.Confirm, x);
            && Lists(s, [TOOL]) && Matches(s, env) && CanExecuteTools(Report(SnapshotConfig(s)))
            && Misspelled(s, TOOL) && Described([TOOL], s.config, x)[0].permission in s.automatic
            && G.Execute(env, G.Gate({}, []), G.Request(TOOL, args, None)).1.code == G.ConfirmationRequired
  {
    CleanReportExists(ProjectSearch, permission, G.Confirm, x);
    DescribedTool(ProjectSearch, permission, G.Confirm, x);
    assert TOOL in env.registry.Keys;
    ConfirmedToolAsks(env, G.Rule(G.Confirm, G.Low, false), args);
    hide Report, SnapshotConfig, EffectiveNames, Lists, Described, G.Execute, CanExecuteTools, Strip;
  }

  /** A blank permission escapes it too: the report is clean, an intent is active, and the
      catalogue is refused, so that nothing can be planned. */
  lemma BlankPermissionStopsPlanning(permission: string, effect: G.Effect, env: G.Env, x: Casing)
    requires x.LikePython() && Strip(permission) == "" && effect != G.Deny
    requires env.policy == Some(OneTool(ProjectSearch, permission, effect, x).policy)
    requires env.registry.Keys == {TOOL}
    ensures var s := OneTool(ProjectSearch, permission, effect, x);
            && Lists(s, [TOOL]) && Matches(s, env) && CanExecuteTools(Report(SnapshotConfig(s)))
            && ActiveIntent(s, ProjectSearch) && CatalogFails(env.registry.Keys, [TOOL], s.config, x)
  {
    assert Strip("READ") == "READ" by { SolidIsStripped("READ"); }
    var s := OneTool(ProjectSearch, permission, effect, x);
    CleanReportExists(ProjectSearch, permission, effect, x);
    assert !Complete(s.config[TOOL]);
    hide Report, SnapshotConfig, EffectiveNames, Lists, Described, CanExecuteTools, Strip, ActiveIntent;
    CleanCatalogIsBuilt(s, [TOOL], env, ProjectSearch);
    assert TOOL in [TOOL];
  }

  // ---- two providers ----

  const SPARE := "spare_tool"

  lemma PermissionOfMore(permissions: seq<PolicyPermission>, entry: PolicyPermission, name: string)
    ensures PermissionOf(permissions + [entry], name) ==
            if entry.toolName == name then Some(entry) else PermissionOf(permissions, name)
  {
    assert (permissions + [entry])[..|permissions|] == permissions;
  }

  function WithTool(cfg: Config, tool: PolicyTool, entry: PolicyPermission): Config {
    cfg.(tools := cfg.tools + [tool], permissions := cfg.permissions + [entry])
  }

  /** A tool that no route needs and that has a rule of its own. */
  predicate Unneeded(cfg: Config, tool: PolicyTool, entry: PolicyPermission) {
    && entry.toolName == tool.name && entry.effect == "allow" && entry.risk in RISKS
    && !tool.plugin && tool.domain == "" && tool.risk == ""
    && (forall t :: t in cfg.tools ==> t.name != tool.name)
    && (forall r, c :: r in cfg.routes && c in r.capabilities ==> c !in tool.capabilities)
  }

  lemma EligibleWithTool(cfg: Config, tool: PolicyTool, entry: PolicyPermission, c: string)
    requires Unneeded(cfg, tool, entry) && c !in tool.capabilities
    ensures forall t :: t in cfg.tools ==> (Eligible(WithTool(cfg, tool, entry), t, c) <==> Eligible(cfg, t, c))
    ensures ExactlyOneEligible(cfg, c) ==> ExactlyOneEligible(WithTool(cfg, tool, entry), c)
  {
    var more := WithTool(cfg, tool, entry);
    forall t | t in cfg.tools ensures Eligible(more, t, c) <==> Eligible(cfg, t, c) {
      PermissionOfMore(cfg.permissions, entry, t.name);
    }
    assert !Eligible(more, tool, c);
    hide Eligible;
    if ExactlyOneEligible(cfg, c) {
      var i :| 0 <= i < |cfg.tools| && Eligible(cfg, cfg.tools[i], c);
      assert more.tools[i] == cfg.tools[i];
      assert forall j :: 0 <= j < |cfg.tools| ==> more.tools[j] == cfg.tools[j];
    }
  }

  lemma RouteWithTool(cfg: Config, tool: PolicyTool, entry: PolicyPermission, r: Route)
    requires Unneeded(cfg, tool, entry) && r in cfg.routes && RouteConsistent(cfg, r)
    ensures RouteConsistent(WithTool(cfg, tool, entry), r)
  {
    hide ExactlyOneEligible, Serves;
    forall c | c in r.capabilities && ExactlyOneEligible(cfg, c)
      ensures ExactlyOneEligible(WithTool(cfg, tool, entry), c)
    {
      EligibleWithTool(cfg, tool, entry, c);
    }
  }

  lemma ToolWithTool(cfg: Config, tool: PolicyTool, entry: PolicyPermission, t: PolicyTool)
    requires Unneeded(cfg, tool, entry) && (t == tool || (t in cfg.tools && ToolConsistent(cfg, t)))
    ensures ToolConsistent(WithTool(cfg, tool, entry), t)
  {
    PermissionOfMore(cfg.permissions, entry, t.name);
    assert "allow"[0] != "deny"[0] && "allow"[0] != "confirm"[0];
  }

  /** Such a tool leaves a consistent configuration consistent. */
  lemma ToolsWithTool(cfg: Config, tool: PolicyTool, entry: PolicyPermission)
    requires Unneeded(cfg, tool, entry) && ToolsConsistent(cfg)
    ensures ToolsConsistent(WithTool(cfg, tool, entry))
  {
    var more := WithTool(cfg, tool, entry);
    forall r | r in more.routes ensures RouteConsistent(more, r) { RouteWithTool(cfg, tool, entry, r); }
    forall t | t in more.tools ensures ToolConsistent(more, t) { ToolWithTool(cfg, tool, entry, t); }
    hide RouteConsistent, ToolConsistent, Unneeded;
    assert tool in more.tools && forall t :: t in cfg.tools ==> t in more.tools;
    assert UniqueNames(more.tools) by { UniqueWithOne(cfg.tools, tool); }
  }

  lemma UniqueWithOne(tools: seq<PolicyTool>, tool: PolicyTool)
    requires UniqueNames(tools) && forall t :: t in tools ==> t.name != tool.name
    ensures UniqueNames(tools + [tool])
  {
  }

  /** The same with a second tool for one more capability, which is allowed. */
  function TwoTools(intent: Intent, permission: string, effect: G.Effect, spare: string, x: Casing): Sources
    requires Simple(intent)
  {
    var s := OneTool(intent, permission, effect, x);
    s.(builtins := [TOOL, SPARE], config := s.config[SPARE := Metadata("READ", [spare])],
       policy := G.Policy(s.policy.rules[SPARE := G.Rule(G.Allow, G.Low, false)], 1), ruleNames := [TOOL, SPARE])
  }

  function SpareTool(spare: string): PolicyTool { PolicyTool(SPARE, false, "", [spare], "READ", "", true, true, true) }

  function SpareEntry(): PolicyPermission { PolicyPermission(SPARE, EffectName(G.Allow), "low") }

  lemma NamesOfTwo()
    ensures TOOL != SPARE && G.ValidToolName(SPARE) && G.ValidToolName(TOOL)
  {
    assert TOOL[0] != SPARE[0];
  }

  lemma TwoToolsAre(intent: Intent, permission: string, effect: G.Effect, spare: string, x: Casing)
    requires x.LikePython() && Simple(intent)
    ensures var s, one := TwoTools(intent, permission, effect, spare, x), OneTool(intent, permission, effect, x);
            && s.Valid() && one.Valid() && ActivePlugins(s) == []
            && NormalizedTools(s) == NormalizedTools(one) + [SpareTool(spare)]
            && Permissions(s) == Permissions(one) + [SpareEntry()]
  {
    var s := TwoTools(intent, permission, effect, spare, x);
    OneToolIs(intent, permission, effect, x);
    NamesOfTwo();
    assert s.ruleNames == [TOOL, SPARE];
    assert forall name :: name in s.ruleNames <==> name == TOOL || name == SPARE;
    assert Filter(s.plugins, (p: PluginTool) => p.active) == [];
  }

  /** No route names the capability of the second tool as it is written. */
  ghost predicate OffRoute(spare: string) { forall intent :: spare !in IntentRoute(intent) }

  lemma ActiveWithSpare(intent: Intent, permission: string, effect: G.Effect, spare: string, x: Casing, other: Intent)
    requires x.LikePython() && Simple(intent) && OffRoute(spare)
    ensures ActiveIntent(TwoTools(intent, permission, effect, spare, x), other) <==>
            ActiveIntent(OneTool(intent, permission, effect, x), other)
  {
    TwoToolsAre(intent, permission, effect, spare, x);
    var s, one := TwoTools(intent, permission, effect, spare, x), OneTool(intent, permission, effect, x);
    hide NormalizedTools, IntentRoute;
    assert forall t :: t in NormalizedTools(s) <==> t in NormalizedTools(one) || t == SpareTool(spare);
    forall c | c in IntentRoute(other)
      ensures Configured(NormalizedTools(s), c) <==> Configured(NormalizedTools(one), c)
    {
      assert !Candidate(SpareTool(spare), c);
    }
  }

  lemma SnapshotWithSpare(intent: Intent, permission: string, effect: G.Effect, spare: string, x: Casing)
    requires x.LikePython() && Simple(intent) && OffRoute(spare)
    ensures var s, one := TwoTools(intent, permission, effect, spare, x), OneTool(intent, permission, effect, x);
            && s.Valid() && one.Valid()
            && SnapshotConfig(s) == WithTool(SnapshotConfig(one), SpareTool(spare), SpareEntry())
  {
    TwoToolsAre(intent, permission, effect, spare, x);
    OneToolIs(intent, permission, effect, x);
    var s, one := TwoTools(intent, permission, effect, spare, x), OneTool(intent, permission, effect, x);
    hide NormalizedTools, Permissions, ActiveIntent, IntentRoute, IntentName, ActivePlugins, Capability;
    forall i ensures ActiveIntent(s, i) <==> ActiveIntent(one, i) {
      ActiveWithSpare(intent, permission, effect, spare, x, i);
    }
    assert SnapshotConfig(s).activeIntents == SnapshotConfig(one).activeIntents;
  }

  /** The second tool keeps the report clean. */
  lemma SpareKeepsClean(intent: Intent, spare: string, x: Casing)
    requires x.LikePython() && Simple(intent) && OffRoute(spare)
    ensures var s := TwoTools(intent, "READ", G.Allow, spare, x);
            s.Valid() && ActiveIntent(s, intent) && CanExecuteTools(Report(SnapshotConfig(s)))
  {
    var s, one := TwoTools(intent, "READ", G.Allow, spare, x), OneTool(intent, "READ", G.Allow, x);
    SnapshotWithSpare(intent, "READ", G.Allow, spare, x);
    CleanReportExists(intent, "READ", G.Allow, x);
    ActiveWithSpare(intent, "READ", G.Allow, spare, x, intent);
    var cfg := SnapshotConfig(one);
    ReportIsExact(cfg);
    SpareIsUnneeded(intent, spare, x);
    hide SnapshotConfig, Report, ToolsConsistent, CanExecuteTools, Unneeded, ActiveIntent, OneTool, TwoTools;
    ToolsWithTool(cfg, SpareTool(spare), SpareEntry());
    ModelsWithTool(cfg, SpareTool(spare), SpareEntry());
    ReportIsExact(WithTool(cfg, SpareTool(spare), SpareEntry()));
  }

  lemma ModelsWithTool(cfg: Config, tool: PolicyTool, entry: PolicyPermission)
    requires ModelsConsistent(cfg)
    ensures ModelsConsistent(WithTool(cfg, tool, entry))
  {
    hide ProfileOf;
    forall i ensures Routed(WithTool(cfg, tool, entry), i) <==> Routed(cfg, i) {}
  }

  lemma SpareIsUnneeded(intent: Intent, spare: string, x: Casing)
    requires x.LikePython() && Simple(intent) && OffRoute(spare)
    ensures OneTool(intent, "READ", G.Allow, x).Valid()
    ensures Unneeded(SnapshotConfig(OneTool(intent, "READ", G.Allow, x)), SpareTool(spare), SpareEntry())
  {
    var cfg := SnapshotConfig(OneTool(intent, "READ", G.Allow, x));
    OneToolIs(intent, "READ", G.Allow, x);
    NamesOfTwo();
    hide NormalizedTools, Permissions, ActiveIntent, IntentRoute, IntentName, Capability;
    forall r, c | r in cfg.routes && c in r.capabilities ensures c !in SpareTool(spare).capabilities {
      var k :| 0 <= k < |ROUTED| && cfg.routes[k] == r;
    }
  }

  lemma TwoToolsListed(intent: Intent, spare: string, x: Casing)
    requires x.LikePython() && Simple(intent)
    ensures var s := TwoTools(intent, "READ", G.Allow, spare, x); s.Valid() && Lists(s, [TOOL, SPARE])
  {
    var s := TwoTools(intent, "READ", G.Allow, spare, x);
    TwoToolsAre(intent, "READ", G.Allow, spare, x);
    OneToolIs(intent, "READ", G.Allow, x);
    NamesOfTwo();
    RuleOf(s, TOOL);
    RuleOf(s, SPARE);
    hide NormalizedTools, Permissions, PermissionOf, Capability;
    var tools := NormalizedTools(s);
    assert tools[0] in tools && tools[1] in tools && tools[0].name == TOOL && tools[1].name == SPARE;
    assert Effective(s, tools[0]) && Effective(s, tools[1]);
    assert EffectiveNames(s) == {TOOL, SPARE};
  }

  /** A clean report does not rule out a second provider: a tool whose capability is written
      otherwise, but read as that of the route. */
  lemma SecondProviderEscapes(intent: Intent, spare: string, x: Casing)
    requires x.LikePython() && Simple(intent)
    requires Strip(spare) != "" && x.lower(Strip(spare)) == Capability(intent) && spare != Capability(intent)
    ensures var s := TwoTools(intent, "READ", G.Allow, spare, x);
            && s.Valid() && Lists(s, [TOOL, SPARE]) && CanExecuteTools(Report(SnapshotConfig(s)))
            && ActiveIntent(s, intent) && Capability(intent) in IntentRoute(intent)
            && !SpelledAlike(s, [TOOL, SPARE], Capability(intent))
            && !ExactlyOneProvider(Described([TOOL, SPARE], s.config, x), Capability(intent))
  {
    var s, c := TwoTools(intent, "READ", G.Allow, spare, x), Capability(intent);
    assert OffRoute(spare) by {
      forall other ensures spare !in IntentRoute(other) {
        if spare in IntentRoute(other) { RoutesAreNormal(other, spare, x); }
      }
    }
    RouteOfSimple(intent);
    SpareKeepsClean(intent, spare, x);
    TwoToolsListed(intent, spare, x);
    NamesOfTwo();
    ProvidedIn([spare], c, x);
    assert spare in [spare] && Gives(spare, c, x);
    hide Lists, Report, SnapshotConfig, ActiveIntent, IntentRoute, Strip, Provided, CanExecuteTools;
    assert c in Described([TOOL, SPARE], s.config, x)[1].capabilities;
    CleanMeansOneProvider(s, [TOOL, SPARE], intent, c);
  }

  /** Every capability has such spellings: with a blank, and with capitals for its letters. */
  lemma CapabilityHasOtherSpellings(name: string, other: string, x: Casing)
    requires x.LikePython() && Normal(name, x) && StartsSolid(name) && EndsSolid(name)
    requires Ascii(other) && other != "" && StartsSolid(other) && EndsSolid(other) && LowerAscii(other) == name
    ensures Strip(" " + name) != "" && x.lower(Strip(" " + name)) == name && " " + name != name
    ensures Strip(other) != "" && x.lower(Strip(other)) == name
  {
    PaddedSpelling(name);
    SolidIsStripped(other);
    hide Strip, LowerAscii, Ascii;
  }

  lemma DiffInUpperCase()
    ensures Ascii("GIT.DIFF") && StartsSolid("GIT.DIFF") && EndsSolid("GIT.DIFF")
    ensures LowerAscii("GIT.DIFF") == "git.diff" && "GIT.DIFF" != "git.diff"
  {
    assert "GIT.DIFF"[0] != "git.diff"[0];
  }

  /** The capability of code reviews has both. */
  lemma DiffHasOtherSpellings(x: Casing)
    requires x.LikePython()
    ensures Strip(" " + "git.diff") != "" && x.lower(Strip(" " + "git.diff")) == Capability(CodeReview)
    ensures " " + "git.diff" != Capability(CodeReview)
    ensures Strip("GIT.DIFF") != "" && x.lower(Strip("GIT.DIFF")) == Capability(CodeReview)
    ensures "GIT.DIFF" != Capability(CodeReview)
  {
    RouteOfSimple(CodeReview);
    RoutesAreNormal(CodeReview, "git.diff", x);
    assert StartsSolid("git.diff") && EndsSolid("git.diff");
    DiffInUpperCase();
    hide Strip, LowerAscii, Ascii, StartsSolid, EndsSolid, IntentRoute;
    CapabilityHasOtherSpellings("git.diff", "GIT.DIFF", x);
  }
}
