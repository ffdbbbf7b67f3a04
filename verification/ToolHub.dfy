/** The tool hub and the executor agent as the objects they are, proved against ToolModel. */
module ToolHub {
  import opened Optional
  import opened ToolModel
  import opened ToolTheorems

  class ToolHub {
    var registry: map<string, Tool>
    var cache: map<string, Cached>
    var metrics: map<string, nat>
    var audit: seq<AuditEvent>
    ghost var origins: map<string, Call>
    ghost var runs: seq<ToolRun>

    ghost function Abs(): Hub
      reads this
    {
      Hub(registry, cache, metrics, audit, origins, runs)
    }

    constructor ()
      ensures Abs() == Hub(map[], map[], map[], [], map[], [])
    {
      registry, cache, metrics, audit := map[], map[], map[], [];
      origins, runs := map[], [];
    }

    method Register(tool: Tool)
      modifies this`registry
      ensures Abs() == old(Abs()).(registry := old(registry)[tool.name := tool])
    {
      registry := registry[tool.name := tool];
    }

    method Increment(name: string)
      modifies this`metrics
      ensures metrics == Inc(old(metrics), name)
    {
      metrics := metrics[name := (if name in metrics then metrics[name] else 0) + 1];
    }

    method InvokeTool(call: Call) returns (result: Result<InvokeResult, Exn>)
      modifies this
      ensures (Abs(), result) == Invoke(old(Abs()), call)
    {
      if call.tool !in registry {
        return Err(NotRegistered(call.tool));
      }
      var tool := registry[call.tool];
      if call.ctx.role !in tool.requiredRoles {
        Increment("tool.permission_denied");
        return Err(RoleDenied(call.ctx.role, call.tool));
      }
      if tool.idempotent && call.key in cache {
        Increment("tool.idempotency_hit");
        var hit := cache[call.key];
        return Ok(InvokeResult(hit.output, hit.auditRef, true));
      }
      var params := SetDefault(call.params, "_tenant_id", Text(call.ctx.tenant));
      params := SetDefault(params, "_user_id", Text(call.ctx.user));
      params := SetDefault(params, "_user_role", Text(call.ctx.role));
      var ran := tool.run(params);
      runs := runs + [ToolRun(call.key, tool.idempotent, ran.Ok?)];
      if ran.Err? {
        return Err(ran.error);
      }
      Increment("tool.success");
      var auditRef := |audit|;
      audit := audit + [AuditEvent(call, params)];
      if tool.idempotent {
        cache := cache[call.key := Cached(ran.value, auditRef)];
        origins := origins[call.key := call];
      }
      return Ok(InvokeResult(ran.value, auditRef, false));
    }
  }

  class ExecutorAgent {
    const hub: ToolHub
    const hashing: Hashing

    constructor (hub: ToolHub, hashing: Hashing)
      ensures this.hub == hub && this.hashing == hashing
    {
      this.hub, this.hashing := hub, hashing;
    }

    /** The parameters of a step: overrides win, and a database call gets its confirmation flag. */
    method PrepareParams(step: Step, policy: Policy, overrides: map<string, Params>) returns (params: Params)
      requires step.ToolStep?
      ensures params == StepParams(step, policy, overrides)
    {
      params := step.params;
      if step.tool in overrides {
        params := Update(params, overrides[step.tool]);
      }
      if step.tool == "database_tool" {
        var field := Lookup(params, "confirm_field");
        var confirmKey := if field.Some? then StrOf(field.value) else "confirm_write";
        if Lookup(params, confirmKey) == None {
          params := Put(params, confirmKey, Flag(policy.confirmWrite));
        }
      }
    }

    method ExecutePlan(steps: seq<Step>, ctx: Context, policy: Policy, overrides: map<string, Params>)
      returns (actions: seq<Action>)
      modifies hub
      ensures (hub.Abs(), actions) == Execute(hashing, old(hub.Abs()), steps, ctx, policy, overrides)
    {
      if !policy.autoExecute {
        return [PolicyGate()];
      }
      actions := [];
      for i := 0 to |steps|
        invariant (hub.Abs(), actions) == ExecuteSteps(hashing, old(hub.Abs()), steps[..i], ctx, policy, overrides)
      {
        assert steps[..i + 1][..i] == steps[..i];
        var step := steps[i];
        if step.OtherStep? {
          continue;
        }
        var params := PrepareParams(step, policy, overrides);
        var key := KeyOf(hashing, ctx.trace, step.tool, params);
        var result := hub.InvokeTool(Call(step.tool, key, ctx, params));
        actions := actions + [ActionOf(step.tool, result)];
      }
      assert steps[..|steps|] == steps;
    }
  }
}
