/** The permission gate in front of every tool call: evaluation, session grants, one-time
    confirmation (permissions/, core/tool_executor.py, core/tool_confirmation.py). */
module PermissionGate {
  import opened Options
  import opened Strings

  // ---- policy ----

  datatype Effect = Allow | Confirm | Deny

  datatype Risk = Low | Medium | High | Critical

  datatype Rule = Rule(effect: Effect, risk: Risk, sessionGrantAllowed: bool)

  const CONFIRMATION_TOKEN := "CONFIRM"

  datatype Policy = Policy(rules: map<string, Rule>, maxSessionGrants: nat) {
    /** What `PermissionRule` and `PermissionPolicy` enforce when they are built. */
    predicate Valid() {
      && 1 <= maxSessionGrants <= 1000
      && forall name :: name in rules ==>
           && ValidToolName(name)
           && (rules[name].sessionGrantAllowed ==> rules[name].effect != Deny && rules[name].risk != Critical)
    }
  }

  /** The pattern `[a-z][a-z0-9_]*`. */
  predicate ValidToolName(name: string) {
    && name != "" && 'a' <= name[0] <= 'z'
    && forall i :: 0 <= i < |name| ==> 'a' <= name[i] <= 'z' || '0' <= name[i] <= '9' || name[i] == '_'
  }

  /** A tool name is a small letter and then small letters, digits and underscores. */
  lemma ValidToolNameIs(name: string)
    ensures ValidToolName(name) <==>
            && |name| > 0 && name[0] in LETTERS
            && forall i :: 0 < i < |name| ==> name[i] in LETTERS || name[i] in DIGITS || name[i] == '_'
  {
    forall c: char ensures ('a' <= c <= 'z' <==> c in LETTERS) && ('0' <= c <= '9' <==> c in DIGITS) {
      LetterIs(c);
      DigitIs(c);
    }
    hide LETTERS, DIGITS;
  }

  datatype Decision = Decision(effect: Effect, rule: Option<Rule>, policyError: bool) {
    predicate Allowed() { effect == Allow && !policyError }
    predicate ConfirmationRequired() { effect == Confirm && !policyError }
    predicate AllowsSessionGrant() { ConfirmationRequired() && rule.Some? && rule.value.sessionGrantAllowed }
  }

  function Evaluate(policy: Policy, tool: string): Decision {
    if !ValidToolName(tool) then Decision(Deny, None, true)
    else if tool !in policy.rules then Decision(Deny, None, true)
    else Decision(policy.rules[tool].effect, Some(policy.rules[tool]), false)
  }

  // ---- tools ----

  type Args = map<string, string>

  /** What a tool returns: the flag and reason code it reports, if it reports any. */
  datatype Data = Data(reportsFailure: bool, reasonCode: string)

  datatype Outcome = Raises | Returns(data: Data)

  /** `run(n, args)` is what the call does when n calls of any tool came before it. */
  datatype Tool = Tool(signatureKnown: bool, accepts: Args -> bool, run: (nat, Args) -> Outcome)

  datatype Request = Request(tool: string, args: Args, token: Option<string>)

  datatype Status = Success | UnknownTool | InvalidArguments | Failed

  datatype Code =
    | NoCode | ToolSignatureInvalid | ArgumentsInvalid | ToolExecutionFailed
    | ConfirmationRequired | PermissionDenied | PermissionPolicyError | ConfirmationRejected
    | ToolReportedFailure | TestFailure | Timeout | RuntimeUnavailable | ResultParseError

  datatype ToolResult = ToolResult(
    status: Status, tool: string, data: Option<Data>, code: Code, sessionAllowed: bool)

  function Failure(tool: string, status: Status, code: Code): ToolResult {
    ToolResult(status, tool, None, code, false)
  }

  /** One invocation of a callable, with the token it was requested with and the grants that
      were live at that moment. */
  datatype Call = Call(tool: string, args: Args, token: Option<string>, grants: set<string>)

  datatype Env = Env(registry: map<string, Tool>, policy: Option<Policy>, sessions: bool)

  datatype Gate = Gate(grants: set<string>, calls: seq<Call>)

  // ---- one execution ----

  function PermissionFailure(env: Env, grants: set<string>, r: Request): Option<ToolResult> {
    if env.policy.None? then None
    else
      var d := Evaluate(env.policy.value, r.tool);
      if d.Allowed() then None
      else if d.ConfirmationRequired() then
        if r.token == Some(CONFIRMATION_TOKEN) then None
        else if env.sessions && r.tool in grants && d.AllowsSessionGrant() then None
        else Some(ToolResult(Failed, r.tool, None, ConfirmationRequired, d.AllowsSessionGrant()))
      else if d.effect == Deny && !d.policyError then Some(Failure(r.tool, Failed, PermissionDenied))
      else Some(Failure(r.tool, Failed, PermissionPolicyError))
  }

  function Execute(env: Env, g: Gate, r: Request): (Gate, ToolResult) {
    if r.tool !in env.registry then (g, Failure(r.tool, UnknownTool, NoCode))
    else
      var tool := env.registry[r.tool];
      match PermissionFailure(env, g.grants, r)
      case Some(failure) => (g, failure)
      case None =>
        if !tool.signatureKnown then (g, Failure(r.tool, Failed, ToolSignatureInvalid))
        else if !tool.accepts(r.args) then (g, Failure(r.tool, InvalidArguments, ArgumentsInvalid))
        else
          var after := g.(calls := g.calls + [Call(r.tool, r.args, r.token, g.grants)]);
          match tool.run(|g.calls|, r.args)
          case Raises => (after, Failure(r.tool, Failed, ToolExecutionFailed))
          case Returns(data) => (after, ToolResult(Success, r.tool, Some(data), NoCode, false))
  }

  function ExecuteConfirmedOnce(env: Env, g: Gate, r: Request): (Gate, ToolResult) {
    if env.policy.None? then Execute(env, g, r)
    else Execute(env, g, r.(token := Some(CONFIRMATION_TOKEN)))
  }

  // ---- session grants ----

  /** `SessionGrantStore.grant`: no new grant past the maximum. */
  predicate HasRoom(grants: set<string>, maximum: nat, tool: string) {
    tool in grants || |grants| < maximum
  }

  predicate MayGrant(env: Env, grants: set<string>, maximum: nat, tool: string) {
    && tool in env.registry && env.policy.Some? && env.sessions
    && Evaluate(env.policy.value, tool).AllowsSessionGrant()
    && HasRoom(grants, maximum, tool)
  }

  function GrantSession(env: Env, g: Gate, maximum: nat, tool: string): (Gate, bool) {
    if MayGrant(env, g.grants, maximum, tool) then (g.(grants := g.grants + {tool}), true) else (g, false)
  }

  // ---- confirmation ----

  datatype Answer = ApproveOnce | ApproveSession | Reject | Cancel

  /** What the prompt callback did, or the text it returned. */
  datatype Response =
    | NoCallback | CallbackRaised | IsTrue | IsFalse | IsDecision(answer: Answer)
    | IsText(text: string) | IsOther

  function Decide(response: Response, sessionAllowed: bool): Answer {
    match response
    case NoCallback => Cancel
    case CallbackRaised => Cancel
    case IsTrue => ApproveOnce
    case IsFalse => Reject
    case IsDecision(answer) => if answer == ApproveSession && !sessionAllowed then Reject else answer
    case IsText(text) =>
      var normalized := LowerAscii(Strip(text));
      if normalized in {"y", "yes"} then ApproveOnce
      else if normalized in {"s", "session"} && sessionAllowed then ApproveSession
      else Reject
    case IsOther => Reject
  }

  function ExecuteWithConfirmation(env: Env, g: Gate, maximum: nat, r: Request, manager: Option<Response>)
    : (Gate, ToolResult)
  {
    var original := Request(r.tool, r.args, None);
    var (g1, first) := Execute(env, g, original);
    if first.code != ConfirmationRequired || manager.None? then (g1, first)
    else match Decide(manager.value, first.sessionAllowed)
      case ApproveSession =>
        var (g2, granted) := GrantSession(env, g1, maximum, r.tool);
        if granted then Execute(env, g2, original)
        else (g1, ToolResult(Failed, r.tool, None, PermissionPolicyError, first.sessionAllowed))
      case ApproveOnce => ExecuteConfirmedOnce(env, g1, original)
      case _ => (g1, Failure(r.tool, Failed, ConfirmationRejected))
  }

  // ---- what a call needs ----

  /** The rule for a tool, if it has a valid name and one. */
  function RuleOf(env: Env, tool: string): Option<Rule>
    requires env.policy.Some?
  {
    if ValidToolName(tool) && tool in env.policy.value.rules then Some(env.policy.value.rules[tool]) else None
  }

  /** A session grant that counts now. */
  predicate Live(env: Env, grants: set<string>, tool: string)
    requires env.policy.Some?
  {
    && env.sessions && tool in grants
    && RuleOf(env, tool).Some? && RuleOf(env, tool).value.effect == Confirm
    && RuleOf(env, tool).value.sessionGrantAllowed
  }

  /** The policy lets a request pass: there is none, the rule allows it, or it asks for a
      confirmation and the request carries the token or a grant is live. */
  predicate Passes(env: Env, grants: set<string>, tool: string, token: Option<string>) {
    env.policy.Some? ==>
      && RuleOf(env, tool).Some?
      && match RuleOf(env, tool).value.effect
         case Allow => true
         case Confirm => token == Some("CONFIRM") || Live(env, grants, tool)
         case Deny => false
  }

  /** What a request for a registered tool gets that the policy does not let pass. */
  function Stopped(env: Env, tool: string): ToolResult
    requires env.policy.Some?
  {
    match RuleOf(env, tool)
    case None => ToolResult(Failed, tool, None, PermissionPolicyError, false)
    case Some(rule) =>
      if rule.effect == Deny then ToolResult(Failed, tool, None, PermissionDenied, false)
      else ToolResult(Failed, tool, None, ConfirmationRequired, rule.sessionGrantAllowed)
  }

  /** The outcome of every direct request, by registry, rule, token, grants, signature and
      arguments. */
  lemma ExecuteOutcome(env: Env, g: Gate, r: Request)
    ensures r.tool !in env.registry ==> Execute(env, g, r) == (g, ToolResult(UnknownTool, r.tool, None, NoCode, false))
    ensures r.tool in env.registry && !Passes(env, g.grants, r.tool, r.token) ==>
              Execute(env, g, r) == (g, Stopped(env, r.tool))
    ensures r.tool in env.registry && Passes(env, g.grants, r.tool, r.token) ==>
              var tool := env.registry[r.tool];
              && (!tool.signatureKnown ==>
                   Execute(env, g, r) == (g, ToolResult(Failed, r.tool, None, ToolSignatureInvalid, false)))
              && (tool.signatureKnown && !tool.accepts(r.args) ==>
                   Execute(env, g, r) == (g, ToolResult(InvalidArguments, r.tool, None, ArgumentsInvalid, false)))
              && (tool.signatureKnown && tool.accepts(r.args) ==>
                   && Execute(env, g, r).0 == Gate(g.grants, g.calls + [Call(r.tool, r.args, r.token, g.grants)])
                   && Execute(env, g, r).1 == CallResult(r.tool, tool.run(|g.calls|, r.args)))
  {
  }

  /** A call that raises fails; what it returns is the data of a success. */
  function CallResult(tool: string, outcome: Outcome): ToolResult {
    if outcome == Raises then ToolResult(Failed, tool, None, ToolExecutionFailed, false)
    else ToolResult(Success, tool, Some(outcome.data), NoCode, false)
  }

  /** The answers that approve one call. */
  predicate ApprovesOnce(answer: Response) {
    || answer == IsTrue || answer == IsDecision(ApproveOnce)
    || (answer.IsText? && (LowerAscii(Strip(answer.text)) == "y" || LowerAscii(Strip(answer.text)) == "yes"))
  }

  /** The answers that approve a tool for the session. */
  predicate ApprovesSession(answer: Response) {
    || answer == IsDecision(ApproveSession)
    || (answer.IsText? && (LowerAscii(Strip(answer.text)) == "s" || LowerAscii(Strip(answer.text)) == "session"))
  }

  lemma AnswersDiffer(answer: Response)
    ensures !(ApprovesOnce(answer) && ApprovesSession(answer))
  {
    assert "y"[0] != "s"[0] && "yes"[0] != "session"[0];
  }

  /** What decides: one of the answers above, the one for the session only where it is offered. */
  lemma DecisionNeedsApproval(answer: Response, sessionAllowed: bool)
    ensures Decide(answer, sessionAllowed) == ApproveOnce <==> ApprovesOnce(answer)
    ensures Decide(answer, sessionAllowed) == ApproveSession <==> ApprovesSession(answer) && sessionAllowed
  {
    AnswersDiffer(answer);
  }

  /** Every confirmed execution of a registered tool that has to be confirmed: one approval makes
      the call with the token; an approval for the session makes it under a new grant, if the rule
      is grantable and there is room; every other answer leaves calls and grants alone. */
  lemma AnswerDecides(
    env: Env, g: Gate, maximum: nat, tool: string, args: Args, token: Option<string>, answer: Response)
    requires env.policy.Some? && tool in env.registry && !Live(env, g.grants, tool)
    requires RuleOf(env, tool).Some? && RuleOf(env, tool).value.effect == Confirm
    ensures var outcome := ExecuteWithConfirmation(env, g, maximum, Request(tool, args, token), Some(answer));
            var grantable := RuleOf(env, tool).value.sessionGrantAllowed;
            if ApprovesOnce(answer) then outcome == Execute(env, g, Request(tool, args, Some("CONFIRM")))
            else if ApprovesSession(answer) && grantable then
              if env.sessions && (tool in g.grants || |g.grants| < maximum)
              then outcome == Execute(env, Gate(g.grants + {tool}, g.calls), Request(tool, args, None))
              else outcome == (g, ToolResult(Failed, tool, None, PermissionPolicyError, grantable))
            else outcome == (g, ToolResult(Failed, tool, None, ConfirmationRejected, false))
  {
    var original := Request(tool, args, None);
    ExecuteOutcome(env, g, original);
    DecisionNeedsApproval(answer, RuleOf(env, tool).value.sessionGrantAllowed);
    hide Execute, ApprovesOnce, ApprovesSession, Decide, ValidToolName;
  }

  /** Without a prompt, or when nothing has to be confirmed, a confirmed execution is a direct one
      without a token. */
  lemma NothingToConfirm(env: Env, g: Gate, maximum: nat, r: Request, manager: Option<Response>)
    requires || manager.None? || r.tool !in env.registry || Passes(env, g.grants, r.tool, None)
             || RuleOf(env, r.tool).None? || RuleOf(env, r.tool).value.effect != Confirm
    ensures ExecuteWithConfirmation(env, g, maximum, r, manager) == Execute(env, g, Request(r.tool, r.args, None))
  {
    ExecuteOutcome(env, g, Request(r.tool, r.args, None));
    hide Execute, ValidToolName;
  }

  /** Why a recorded call was allowed to happen under a policy. */
  predicate Justified(env: Env, call: Call)
    requires env.policy.Some?
  {
    var rules := env.policy.value.rules;
    && call.tool in env.registry && env.registry[call.tool].accepts(call.args)
    && ValidToolName(call.tool) && call.tool in rules
    && (|| rules[call.tool].effect == Allow
        || ( && rules[call.tool].effect == Confirm
             && (|| call.token == Some(CONFIRMATION_TOKEN)
                 || (env.sessions && call.tool in call.grants && rules[call.tool].sessionGrantAllowed))))
  }

  lemma ExecuteIsGated(env: Env, g: Gate, r: Request)
    requires env.policy.Some?
    ensures var (after, result) := Execute(env, g, r);
            && after.grants == g.grants
            && (after.calls == g.calls
                || (after.calls == g.calls + [Call(r.tool, r.args, r.token, g.grants)]
                    && Justified(env, after.calls[|g.calls|])))
            && (result.status == Success ==> after.calls != g.calls)
  {
  }

  /** The callable runs exactly under this condition; with no policy every registered tool
      with fitting arguments runs. */
  predicate WouldRun(env: Env, g: Gate, maximum: nat, r: Request, manager: Option<Response>) {
    && r.tool in env.registry && env.registry[r.tool].signatureKnown && env.registry[r.tool].accepts(r.args)
    && (|| Passes(env, g.grants, r.tool, None)
        || ( && RuleOf(env, r.tool).Some? && RuleOf(env, r.tool).value.effect == Confirm && manager.Some?
             && (|| ApprovesOnce(manager.value)
                 || ( && ApprovesSession(manager.value) && RuleOf(env, r.tool).value.sessionGrantAllowed
                      && env.sessions && (r.tool in g.grants || |g.grants| < maximum)))))
  }

  predicate Runs(env: Env, grants: set<string>, r: Request) {
    && r.tool in env.registry && env.registry[r.tool].signatureKnown && env.registry[r.tool].accepts(r.args)
    && PermissionFailure(env, grants, r).None?
  }

  lemma ExecuteRuns(env: Env, g: Gate, r: Request)
    ensures var (after, result) := Execute(env, g, r);
            && result.tool == r.tool && after.grants == g.grants
            && after.calls == g.calls +
                 (if Runs(env, g.grants, r) then [Call(r.tool, r.args, r.token, g.grants)] else [])
            && (result.status == Success ==> Runs(env, g.grants, r))
            && (result.code == ConfirmationRequired ==> !Runs(env, g.grants, r))
            && (result.code == ConfirmationRequired <==>
                 && r.tool in env.registry && PermissionFailure(env, g.grants, r).Some?
                 && PermissionFailure(env, g.grants, r).value.code == ConfirmationRequired)
            && (result.code == ConfirmationRequired ==>
                 env.policy.Some? && result.sessionAllowed == Evaluate(env.policy.value, r.tool).AllowsSessionGrant())
  {
  }

  lemma FailureIs(env: Env, grants: set<string>, r: Request)
    ensures PermissionFailure(env, grants, r).None? <==> Passes(env, grants, r.tool, r.token)
    ensures var failure := PermissionFailure(env, grants, r);
            failure.Some? && failure.value.code == ConfirmationRequired
            <==> && env.policy.Some? && RuleOf(env, r.tool).Some? && RuleOf(env, r.tool).value.effect == Confirm
                 && !Passes(env, grants, r.tool, r.token)
    ensures env.policy.Some? ==>
              (Evaluate(env.policy.value, r.tool).AllowsSessionGrant() <==>
               && RuleOf(env, r.tool).Some? && RuleOf(env, r.tool).value.effect == Confirm
               && RuleOf(env, r.tool).value.sessionGrantAllowed)
  {
    hide ValidToolName;
  }

  lemma TokenIsIgnored(env: Env, g: Gate, maximum: nat, r: Request, manager: Option<Response>)
    ensures ExecuteWithConfirmation(env, g, maximum, r, manager) ==
            ExecuteWithConfirmation(env, g, maximum, r.(token := None), manager)
  {
  }

  /** A confirmed execution runs its callable at most once, exactly when policy, grants and
      answer allow it, and it ignores any token the request brings along. */
  lemma ConfirmedExecutionRuns(env: Env, g: Gate, maximum: nat, r: Request, manager: Option<Response>)
    ensures var (after, result) := ExecuteWithConfirmation(env, g, maximum, r, manager);
            && |g.calls| <= |after.calls| <= |g.calls| + 1 && after.calls[..|g.calls|] == g.calls
            && (|after.calls| == |g.calls| + 1 <==> WouldRun(env, g, maximum, r, manager))
            && (|after.calls| == |g.calls| + 1 ==>
                 after.calls[|g.calls|].tool == r.tool && after.calls[|g.calls|].args == r.args)
            && (result.status == Success ==> |after.calls| == |g.calls| + 1)
            && result.tool == r.tool
    ensures ExecuteWithConfirmation(env, g, maximum, r, manager) ==
            ExecuteWithConfirmation(env, g, maximum, r.(token := None), manager)
  {
    var original := Request(r.tool, r.args, None);
    var confirmed := original.(token := Some(CONFIRMATION_TOKEN));
    TokenIsIgnored(env, g, maximum, r, manager);
    ExecuteRuns(env, g, original);
    FailureIs(env, g.grants, original);
    if Execute(env, g, original).1.code == ConfirmationRequired && manager.Some? {
      var (g1, first) := Execute(env, g, original);
      ExecuteRuns(env, g1, confirmed);
      FailureIs(env, g1.grants, confirmed);
      GrantOutcome(env, g1, maximum, r.tool);
      var granted := GrantSession(env, g1, maximum, r.tool).0;
      ExecuteRuns(env, granted, original);
      FailureIs(env, granted.grants, original);
      DecisionNeedsApproval(manager.value, first.sessionAllowed);
      AnswersDiffer(manager.value);
    }
    hide Execute, GrantSession, Decide, ApprovesOnce, ApprovesSession, RuleOf, PermissionFailure, Evaluate;
  }

  /** Whether an answer is asked for depends on the grants, not on earlier calls. */
  lemma AskingDependsOnGrants(env: Env, g: Gate, h: Gate, r: Request)
    requires g.grants == h.grants
    ensures Execute(env, g, r).1.code == ConfirmationRequired <==> Execute(env, h, r).1.code == ConfirmationRequired
  {
  }

  /** A grant is given exactly to a registered tool under a grantable confirm rule, while there is
      room, and only adds that tool. */
  lemma GrantOutcome(env: Env, g: Gate, maximum: nat, tool: string)
    ensures GrantSession(env, g, maximum, tool) ==
            if && tool in env.registry && env.policy.Some? && env.sessions && RuleOf(env, tool).Some?
               && RuleOf(env, tool).value.effect == Confirm && RuleOf(env, tool).value.sessionGrantAllowed
               && (tool in g.grants || |g.grants| < maximum)
            then (Gate(g.grants + {tool}, g.calls), true) else (g, false)
  {
  }

  /** Only a session approval on a session-grantable rule changes the grants; a one-time
      approval leaves them alone, and the same request has to be confirmed again. */
  lemma OneTimeApprovalIsOneTime(env: Env, g: Gate, maximum: nat, r: Request, manager: Option<Response>)
    ensures var (after, _) := ExecuteWithConfirmation(env, g, maximum, r, manager);
            && (after.grants != g.grants ==>
                 && after.grants == g.grants + {r.tool} && env.policy.Some? && RuleOf(env, r.tool).Some?
                 && RuleOf(env, r.tool).value.effect == Confirm && RuleOf(env, r.tool).value.sessionGrantAllowed
                 && manager.Some? && ApprovesSession(manager.value))
            && (manager.Some? && ApprovesOnce(manager.value) ==> after.grants == g.grants)
            && (manager.Some? && ApprovesOnce(manager.value)
                 && Execute(env, g, Request(r.tool, r.args, None)).1.code == ConfirmationRequired ==>
                 Execute(env, after, Request(r.tool, r.args, None)).1.code == ConfirmationRequired)
  {
    var original := Request(r.tool, r.args, None);
    var (g1, first) := Execute(env, g, original);
    ExecuteRuns(env, g, original);
    ExecuteRuns(env, g1, original);
    ExecuteRuns(env, g1, original.(token := Some(CONFIRMATION_TOKEN)));
    GrantOutcome(env, g1, maximum, r.tool);
    if manager.Some? { DecisionNeedsApproval(manager.value, first.sessionAllowed); }
    ExecuteRuns(env, GrantSession(env, g1, maximum, r.tool).0, original);
    var (after, _) := ExecuteWithConfirmation(env, g, maximum, r, manager);
    if after.grants == g.grants { AskingDependsOnGrants(env, g, after, original); }
    hide Execute, GrantSession, Decide, ApprovesOnce, ApprovesSession, ValidToolName;
  }

  // ---- whole runs ----

  datatype Op =
    | Direct(r: Request)
    | Confirmed(r: Request, manager: Option<Response>)
    | Grant(tool: string)
    | Revoke(tool: string)
    | Clear

  function Next(env: Env, g: Gate, maximum: nat, op: Op): Gate {
    match op
    case Direct(r) => Execute(env, g, r).0
    case Confirmed(r, manager) => ExecuteWithConfirmation(env, g, maximum, r, manager).0
    case Grant(tool) => GrantSession(env, g, maximum, tool).0
    case Revoke(tool) => g.(grants := g.grants - {tool})
    case Clear => g.(grants := {})
  }

  function Run(env: Env, g: Gate, maximum: nat, ops: seq<Op>): Gate
    decreases |ops|
  {
    if ops == [] then g else Run(env, Next(env, g, maximum, ops[0]), maximum, ops[1..])
  }

  /** Grants stay within the maximum and within registered tools whose rule asks for
      confirmation and allows session grants; every call so far was justified. */
  ghost predicate Inv(env: Env, g: Gate, maximum: nat)
    requires env.policy.Some?
  {
    && |g.grants| <= maximum
    && (forall tool :: tool in g.grants ==>
         && tool in env.registry && tool in env.policy.value.rules
         && env.policy.value.rules[tool].effect == Confirm
         && env.policy.value.rules[tool].sessionGrantAllowed)
    && (forall i :: 0 <= i < |g.calls| ==> Justified(env, g.calls[i]))
  }

  lemma FreshGateInv(env: Env, maximum: nat)
    requires env.policy.Some?
    ensures Inv(env, Gate({}, []), maximum)
  {
  }

  lemma GrantKeepsInv(env: Env, g: Gate, maximum: nat, tool: string)
    requires env.policy.Some? && Inv(env, g, maximum)
    ensures Inv(env, GrantSession(env, g, maximum, tool).0, maximum)
  {
    if tool in g.grants { assert g.grants + {tool} == g.grants; }
  }

  lemma ExecuteKeepsInv(env: Env, g: Gate, maximum: nat, r: Request)
    requires env.policy.Some? && Inv(env, g, maximum)
    ensures Inv(env, Execute(env, g, r).0, maximum)
  {
    ExecuteIsGated(env, g, r);
    hide Execute, Justified;
  }

  lemma ConfirmedKeepsInv(env: Env, g: Gate, maximum: nat, r: Request, manager: Option<Response>)
    requires env.policy.Some? && Inv(env, g, maximum)
    ensures Inv(env, ExecuteWithConfirmation(env, g, maximum, r, manager).0, maximum)
  {
    hide Execute, GrantSession, Inv, Decide;
    var original := Request(r.tool, r.args, None);
    ExecuteKeepsInv(env, g, maximum, original);
    var g1 := Execute(env, g, original).0;
    GrantKeepsInv(env, g1, maximum, r.tool);
    ExecuteKeepsInv(env, GrantSession(env, g1, maximum, r.tool).0, maximum, original);
    ExecuteKeepsInv(env, g1, maximum, original.(token := Some(CONFIRMATION_TOKEN)));
  }

  lemma NextKeepsInv(env: Env, g: Gate, maximum: nat, op: Op)
    requires env.policy.Some? && Inv(env, g, maximum)
    ensures Inv(env, Next(env, g, maximum, op), maximum)
  {
    hide Execute, ExecuteWithConfirmation, GrantSession, Justified;
    match op
    case Direct(r) => ExecuteKeepsInv(env, g, maximum, r);
    case Confirmed(r, manager) => ConfirmedKeepsInv(env, g, maximum, r, manager);
    case Grant(tool) => GrantKeepsInv(env, g, maximum, tool);
    case Revoke(tool) => RemovalShrinks(g.grants, tool);
    case Clear =>
  }

  lemma RemovalShrinks(grants: set<string>, tool: string)
    ensures |grants - {tool}| <= |grants|
  {
    if tool !in grants { assert grants - {tool} == grants; }
  }

  /** In every run, a callable ran only for a registered tool whose rule allows it, or asks for
      confirmation and got a token or a live grant; denied and unruled tools never ran. */
  lemma {:induction false} RunIsGated(env: Env, g: Gate, maximum: nat, ops: seq<Op>)
    requires env.policy.Some? && Inv(env, g, maximum)
    ensures Inv(env, Run(env, g, maximum, ops), maximum)
    decreases |ops|
  {
    if ops != [] {
      NextKeepsInv(env, g, maximum, ops[0]);
      RunIsGated(env, Next(env, g, maximum, ops[0]), maximum, ops[1..]);
    }
  }

  /** A token in the log comes from a one-time approval, or from a direct request that already
      carried it: without direct requests, every call of a confirm rule was approved by the
      user, once or for the session. */
  lemma TokenMeansApproval(env: Env, g: Gate, maximum: nat, r: Request, manager: Option<Response>)
    requires env.policy.Some?
    ensures var (after, _) := ExecuteWithConfirmation(env, g, maximum, r, manager);
            |after.calls| == |g.calls| + 1 && after.calls[|g.calls|].token.Some? ==>
              && manager.Some? && ApprovesOnce(manager.value)
              && RuleOf(env, r.tool).Some? && RuleOf(env, r.tool).value.effect == Confirm
  {
    if manager.Some? {
      DecisionNeedsApproval(manager.value, true);
      DecisionNeedsApproval(manager.value, false);
    }
    hide ApprovesOnce, ApprovesSession, Decide;
  }
}
