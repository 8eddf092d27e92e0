/** The grant store and the tool executor as objects that change in place
    (permissions/session_grants.py, core/tool_executor.py, core/tool_confirmation.py). */
module ToolExecutor {
  import opened Options
  import opened PermissionGate

  datatype GrantOutcome = Granted | InvalidName | LimitReached

  class SessionGrantStore {
    const maxGrants: nat
    var grants: set<string>

    constructor (maxGrants: nat)
      requires 1 <= maxGrants <= 1000
      ensures this.maxGrants == maxGrants && grants == {}
    {
      this.maxGrants := maxGrants;
      grants := {};
    }

    ghost predicate Valid()
      reads this
    {
      |grants| <= maxGrants && forall tool :: tool in grants ==> ValidToolName(tool)
    }

    method GrantTool(tool: string) returns (outcome: GrantOutcome)
      requires Valid()
      modifies this
      ensures Valid()
      ensures outcome == (if !ValidToolName(tool) then InvalidName
                          else if HasRoom(old(grants), maxGrants, tool) then Granted else LimitReached)
      ensures grants == if outcome == Granted then old(grants) + {tool} else old(grants)
    {
      if !ValidToolName(tool) { return InvalidName; }
      if tool !in grants && |grants| >= maxGrants { return LimitReached; }
      if tool in grants { assert grants + {tool} == grants; }
      grants := grants + {tool};
      return Granted;
    }

    method Revoke(tool: string) returns (removed: bool)
      requires Valid()
      modifies this
      ensures Valid()
      ensures removed <==> tool in old(grants)
      ensures grants == old(grants) - {tool}
    {
      RemovalShrinks(grants, tool);
      removed := tool in grants;
      grants := grants - {tool};
    }

    method Clear() returns (count: nat)
      requires Valid()
      modifies this
      ensures Valid() && grants == {} && count == |old(grants)|
    {
      count := |grants|;
      grants := {};
    }
  }

  class Executor {
    const registry: map<string, Tool>
    const policy: Option<Policy>
    const store: SessionGrantStore?
    ghost var calls: seq<Call>
    var callCount: nat

    constructor (registry: map<string, Tool>, policy: Option<Policy>, store: SessionGrantStore?)
      ensures this.registry == registry && this.policy == policy && this.store == store
      ensures calls == [] && callCount == 0
    {
      this.registry, this.policy, this.store := registry, policy, store;
      calls, callCount := [], 0;
    }

    ghost predicate Valid()
      reads this, store
    {
      callCount == |calls| && (store != null ==> store.Valid())
    }

    ghost function Environment(): Env { Env(registry, policy, store != null) }

    ghost function State(): Gate
      reads this, store
    {
      Gate(if store == null then {} else store.grants, calls)
    }

    method Permission(r: Request) returns (failure: Option<ToolResult>)
      requires Valid()
      ensures failure == PermissionFailure(Environment(), State().grants, r)
    {
      if policy.None? { return None; }
      var decision := Evaluate(policy.value, r.tool);
      if decision.Allowed() { return None; }
      if decision.ConfirmationRequired() {
        if r.token == Some(CONFIRMATION_TOKEN) { return None; }
        if store != null && r.tool in store.grants && decision.AllowsSessionGrant() { return None; }
        return Some(ToolResult(Failed, r.tool, None, ConfirmationRequired, decision.AllowsSessionGrant()));
      }
      if decision.effect == Deny && !decision.policyError {
        return Some(Failure(r.tool, Failed, PermissionDenied));
      }
      return Some(Failure(r.tool, Failed, PermissionPolicyError));
    }

    method ExecuteRequest(r: Request) returns (result: ToolResult)
      requires Valid()
      modifies this
      ensures Valid()
      ensures (State(), result) == Execute(Environment(), old(State()), r)
    {
      if r.tool !in registry { return Failure(r.tool, UnknownTool, NoCode); }
      var tool := registry[r.tool];
      var failure := Permission(r);
      if failure.Some? { return failure.value; }
      if !tool.signatureKnown { return Failure(r.tool, Failed, ToolSignatureInvalid); }
      if !tool.accepts(r.args) { return Failure(r.tool, InvalidArguments, ArgumentsInvalid); }
      var outcome := tool.run(callCount, r.args);
      calls := calls + [Call(r.tool, r.args, r.token, State().grants)];
      callCount := callCount + 1;
      match outcome
      case Raises => return Failure(r.tool, Failed, ToolExecutionFailed);
      case Returns(data) => return ToolResult(Success, r.tool, Some(data), NoCode, false);
    }

    method ExecuteOnce(r: Request) returns (result: ToolResult)
      requires Valid()
      modifies this
      ensures Valid()
      ensures (State(), result) == ExecuteConfirmedOnce(Environment(), old(State()), r)
    {
      if policy.None? {
        result := ExecuteRequest(r);
      } else {
        result := ExecuteRequest(r.(token := Some(CONFIRMATION_TOKEN)));
      }
    }

    method GrantSessionForTool(tool: string) returns (granted: bool)
      requires Valid()
      modifies store
      ensures Valid()
      ensures store != null ==>
                (State(), granted) == GrantSession(Environment(), old(State()), store.maxGrants, tool)
      ensures store == null ==> !granted
    {
      if tool !in registry { return false; }
      if policy.None? || store == null { return false; }
      var decision := Evaluate(policy.value, tool);
      if !decision.AllowsSessionGrant() { return false; }
      var outcome := store.GrantTool(tool);
      return outcome == Granted;
    }

    ghost function Maximum(): nat { if store == null then 0 else store.maxGrants }

    method ExecuteConfirmed(r: Request, manager: Option<Response>) returns (result: ToolResult)
      requires Valid()
      modifies this, store
      ensures Valid()
      ensures (State(), result) ==
              ExecuteWithConfirmation(Environment(), old(State()), Maximum(), r, manager)
    {
      var original := Request(r.tool, r.args, None);
      result := ExecuteRequest(original);
      if result.code != ConfirmationRequired || manager.None? { return; }
      var answer := Decide(manager.value, result.sessionAllowed);
      if answer == ApproveSession {
        var granted := GrantSessionForTool(r.tool);
        if !granted {
          return ToolResult(Failed, r.tool, None, PermissionPolicyError, result.sessionAllowed);
        }
        result := ExecuteRequest(original);
        return;
      }
      if answer != ApproveOnce { return Failure(r.tool, Failed, ConfirmationRejected); }
      result := ExecuteOnce(original);
    }
  }
}
