/**
  The idempotency cache refines direct execution: with one fresh trace id per execute call,
  clients see the same actions as if every tool were run every time, while each key has at
  most one successful run of an idempotent tool.
*/
module ToolTheorems {
  import opened Optional
  import opened Keys
  import opened ToolModel

  ghost predicate NamesColonFree(hub: Hub) {
    forall n | n in hub.registry :: ':' !in n
  }

  /** Every cache entry is stored under the key of the call it was stored for. */
  ghost predicate CacheKeyed(h: Hashing, hub: Hub) {
    && hub.origins.Keys == hub.cache.Keys
    && forall k | k in hub.cache :: var o := hub.origins[k];
         ':' !in o.ctx.trace && ':' !in o.tool && k == KeyOf(h, o.ctx.trace, o.tool, o.params)
  }

  /** The entries of the current execute call hold what its tools return to its caller. */
  ghost predicate CacheCurrent(hub: Hub, ctx: Context) {
    forall k | k in hub.cache && k in hub.origins && hub.origins[k].ctx.trace == ctx.trace ::
      && hub.origins[k].ctx == ctx
      && Direct(hub.registry, hub.origins[k]) == Ok(hub.cache[k].output)
  }

  /** A successful run of an idempotent tool left an entry, and no key has two of them. */
  ghost predicate RunsOnce(hub: Hub) {
    && (forall i | 0 <= i < |hub.runs| && hub.runs[i].ok && hub.runs[i].idempotent :: hub.runs[i].key in hub.cache)
    && (forall i, j | 0 <= i < j < |hub.runs|
                      && hub.runs[i].ok && hub.runs[j].ok && hub.runs[i].idempotent && hub.runs[j].idempotent ::
          hub.runs[i].key != hub.runs[j].key)
  }

  function Successes(runs: seq<ToolRun>): nat {
    if runs == [] then 0
    else Successes(runs[..|runs| - 1]) + if runs[|runs| - 1].ok then 1 else 0
  }

  /** The success counter, the audit log and the successful runs agree. */
  ghost predicate Audited(hub: Hub) {
    Count(hub.metrics, "tool.success") == |hub.audit| == Successes(hub.runs)
  }

  /** A trace id no entry of the cache was stored under. */
  ghost predicate FreshTrace(hub: Hub, trace: string) {
    ':' !in trace && forall k | k in hub.origins :: hub.origins[k].ctx.trace != trace
  }

  ghost predicate HubOk(h: Hashing, hub: Hub) {
    NamesColonFree(hub) && CacheKeyed(h, hub) && RunsOnce(hub) && Audited(hub)
  }

  lemma KeyInjective(h: Hashing, a: Call, b: Call)
    requires Injective(h)
    requires ':' !in a.ctx.trace && ':' !in b.ctx.trace && ':' !in a.tool && ':' !in b.tool
    requires KeyOf(h, a.ctx.trace, a.tool, a.params) == KeyOf(h, b.ctx.trace, b.tool, b.params)
    ensures a.ctx.trace == b.ctx.trace && a.tool == b.tool && a.params == b.params
  {
    JoinInjective(a.ctx.trace, Join(a.tool, ':', h.render(a.params)), b.ctx.trace,
                  Join(b.tool, ':', h.render(b.params)), ':');
    JoinInjective(a.tool, h.render(a.params), b.tool, h.render(b.params), ':');
  }

  ghost predicate WellKeyed(h: Hashing, call: Call) {
    ':' !in call.ctx.trace && call.key == KeyOf(h, call.ctx.trace, call.tool, call.params)
  }

  lemma InvokeKeepsKeys(h: Hashing, hub: Hub, call: Call)
    requires NamesColonFree(hub) && CacheKeyed(h, hub) && WellKeyed(h, call)
    ensures CacheKeyed(h, Invoke(hub, call).0)
  {
  }

  lemma InvokeRunsOnce(hub: Hub, call: Call)
    requires RunsOnce(hub)
    ensures RunsOnce(Invoke(hub, call).0)
  {
  }

  lemma InvokeAudited(hub: Hub, call: Call)
    requires Audited(hub)
    ensures Audited(Invoke(hub, call).0)
  {
    var hub' := Invoke(hub, call).0;
    if |hub'.runs| > |hub.runs| {
      assert hub'.runs[..|hub'.runs| - 1] == hub.runs;
    }
  }

  lemma InvokeKeepsHub(h: Hashing, hub: Hub, call: Call)
    requires HubOk(h, hub) && WellKeyed(h, call)
    ensures HubOk(h, Invoke(hub, call).0) && Invoke(hub, call).0.registry == hub.registry
  {
    InvokeKeepsKeys(h, hub, call);
    InvokeRunsOnce(hub, call);
    InvokeAudited(hub, call);
  }

  /** What a hit returns is what running the tool would return. */
  lemma HitIsCurrent(h: Hashing, hub: Hub, call: Call)
    requires Injective(h) && NamesColonFree(hub) && CacheKeyed(h, hub) && WellKeyed(h, call)
              && CacheCurrent(hub, call.ctx)
    requires call.tool in hub.registry && call.key in hub.cache
    ensures Direct(hub.registry, call) == Ok(hub.cache[call.key].output)
  {
    KeyInjective(h, hub.origins[call.key], call);
  }

  lemma InvokeKeepsCurrent(h: Hashing, hub: Hub, call: Call)
    requires NamesColonFree(hub) && CacheKeyed(h, hub) && CacheCurrent(hub, call.ctx)
    ensures CacheCurrent(Invoke(hub, call).0, call.ctx)
  {
  }

  /** One invocation gives what running the tool gives, hit or miss. */
  lemma InvokeAgrees(h: Hashing, hub: Hub, call: Call)
    requires Injective(h) && HubOk(h, hub) && WellKeyed(h, call) && CacheCurrent(hub, call.ctx)
    ensures var (hub', r) := Invoke(hub, call);
      && View(ActionOf(call.tool, r)) == DirectView(call.tool, Direct(hub.registry, call))
      && CacheCurrent(hub', call.ctx)
  {
    InvokeKeepsCurrent(h, hub, call);
    if call.tool in hub.registry && call.key in hub.cache { HitIsCurrent(h, hub, call); }
  }

  /** Denied roles reach neither the cache nor the tool, whatever is cached. */
  lemma DeniedNeverReachesTheCache(hub: Hub, call: Call)
    requires call.tool in hub.registry && call.ctx.role !in hub.registry[call.tool].requiredRoles
    ensures var (hub', r) := Invoke(hub, call);
      && r == Err(RoleDenied(call.ctx.role, call.tool)) && hub' == hub.(metrics := hub'.metrics)
      && (forall any :: Invoke(hub.(cache := any), call).1 == r)
  {
  }

  lemma {:induction false} StepsAgree(h: Hashing, hub: Hub, steps: seq<Step>, ctx: Context, policy: Policy,
                                      overrides: map<string, Params>)
    requires Injective(h) && HubOk(h, hub) && ':' !in ctx.trace && CacheCurrent(hub, ctx)
    ensures var (hub', actions) := ExecuteSteps(h, hub, steps, ctx, policy, overrides);
      && Views(actions) == DirectSteps(h, hub.registry, steps, ctx, policy, overrides)
      && HubOk(h, hub') && CacheCurrent(hub', ctx) && hub'.registry == hub.registry
    decreases |steps|
  {
    if steps != [] {
      var init := steps[..|steps| - 1];
      var step := steps[|steps| - 1];
      StepsAgree(h, hub, init, ctx, policy, overrides);
      var (hub1, before) := ExecuteSteps(h, hub, init, ctx, policy, overrides);
      if step.ToolStep? {
        var call := StepCall(h, step, ctx, policy, overrides);
        InvokeKeepsHub(h, hub1, call);
        InvokeAgrees(h, hub1, call);
        var a := ActionOf(step.tool, Invoke(hub1, call).1);
        assert Views(before + [a]) == Views(before) + [View(a)];
      }
    }
  }

  /**
    Under a fresh trace id, any list of steps gives the same actions through the cache as
    without it, and the hub stays in order for the next execute call.
  */
  lemma CacheRefinesDirectExecution(h: Hashing, hub: Hub, steps: seq<Step>, ctx: Context, policy: Policy,
                                    overrides: map<string, Params>)
    requires Injective(h) && HubOk(h, hub) && FreshTrace(hub, ctx.trace)
    ensures var (hub', actions) := Execute(h, hub, steps, ctx, policy, overrides);
      && Views(actions) == (if policy.autoExecute then DirectSteps(h, hub.registry, steps, ctx, policy, overrides)
          else [View(PolicyGate())])
      && HubOk(h, hub')
  {
    if policy.autoExecute {
      StepsAgree(h, hub, steps, ctx, policy, overrides);
    }
  }

  /** One execute call after another, each with its own trace id. */
  datatype Request = Request(steps: seq<Step>, ctx: Context, policy: Policy, overrides: map<string, Params>)

  ghost predicate EachTraceFresh(h: Hashing, hub: Hub, requests: seq<Request>)
    decreases |requests|
  {
    requests == [] ||
    var r := requests[0];
    FreshTrace(hub, r.ctx.trace)
    && EachTraceFresh(h, Execute(h, hub, r.steps, r.ctx, r.policy, r.overrides).0, requests[1..])
  }

  function Serve(h: Hashing, hub: Hub, requests: seq<Request>): Hub
    decreases |requests|
  {
    if requests == [] then hub
    else var r := requests[0]; Serve(h, Execute(h, hub, r.steps, r.ctx, r.policy, r.overrides).0, requests[1..])
  }

  /** Over any sequence of execute calls, each key has at most one successful run of an idempotent tool. */
  lemma {:induction false} AtMostOneRunPerKey(h: Hashing, hub: Hub, requests: seq<Request>)
    requires Injective(h) && HubOk(h, hub) && EachTraceFresh(h, hub, requests)
    ensures HubOk(h, Serve(h, hub, requests)) && RunsOnce(Serve(h, hub, requests))
    decreases |requests|
  {
    if requests != [] {
      var r := requests[0];
      CacheRefinesDirectExecution(h, hub, r.steps, r.ctx, r.policy, r.overrides);
      AtMostOneRunPerKey(h, Execute(h, hub, r.steps, r.ctx, r.policy, r.overrides).0, requests[1..]);
    }
  }

  // ------------------------------------------------- the parameters of a step

  /** The call of a step is of its tool, by the one who executes, with its parameters and the key made of them. */
  lemma StepCallCarries(h: Hashing, step: Step, ctx: Context, policy: Policy, overrides: map<string, Params>)
    requires step.ToolStep?
    ensures var call := StepCall(h, step, ctx, policy, overrides);
      && call.tool == step.tool && call.ctx == ctx && call.params == StepParams(step, policy, overrides)
      && call.key == h.digest(ctx.trace + ":" + step.tool + ":" + h.render(call.params))
  {
    var params := h.render(StepParams(step, policy, overrides));
    assert ctx.trace + ":" + step.tool + ":" + params == Join(ctx.trace, ':', Join(step.tool, ':', params));
  }

  /** A dictionary has each key once. */
  ghost predicate Dictionary(ps: Params) {
    forall i, j | 0 <= i < j < |ps| :: ps[i].0 != ps[j].0
  }

  lemma {:induction false} LookupPut(ps: Params, key: string, v: Value, x: string)
    ensures Lookup(Put(ps, key, v), x) == if x == key then Some(v) else Lookup(ps, x)
  {
    if ps != [] && ps[0].0 != key { LookupPut(ps[1..], key, v, x); }
  }

  lemma {:induction false} LookupAbsent(ps: Params, x: string)
    requires forall i | 0 <= i < |ps| :: ps[i].0 != x
    ensures Lookup(ps, x) == None
  {
    if ps != [] { LookupAbsent(ps[1..], x); }
  }

  lemma {:induction false} LookupUpdate(ps: Params, more: Params, x: string)
    requires Dictionary(more)
    ensures Lookup(Update(ps, more), x) == if Lookup(more, x).Some? then Lookup(more, x) else Lookup(ps, x)
    decreases |more|
  {
    if more != [] {
      var next := Put(ps, more[0].0, more[0].1);
      LookupPut(ps, more[0].0, more[0].1, x);
      LookupUpdate(next, more[1..], x);
      if more[0].0 == x { LookupAbsent(more[1..], x); }
    }
  }

  /** The first of the two that has a value. */
  function Either(a: Option<Value>, b: Option<Value>): Option<Value> {
    if a.Some? then a else b
  }

  /** The parameter that confirms a database write: the one the step or its override names. */
  function ConfirmKey(over: Params, own: Params): string {
    var field := Either(Lookup(over, "confirm_field"), Lookup(own, "confirm_field"));
    if field.Some? then StrOf(field.value) else "confirm_write"
  }

  /**
    What the tool finds under a parameter: the override's value, else the step's own, else, for
    a database call and its confirmation parameter, the policy's flag.
  */
  lemma StepParamsAt(step: Step, policy: Policy, overrides: map<string, Params>, x: string)
    requires step.ToolStep? && forall t | t in overrides :: Dictionary(overrides[t])
    ensures var over := if step.tool in overrides then overrides[step.tool] else [];
      Lookup(StepParams(step, policy, overrides), x)
      == Either(Either(Lookup(over, x), Lookup(step.params, x)),
                if step.tool == "database_tool" && x == ConfirmKey(over, step.params)
                then Some(Flag(policy.confirmWrite)) else None)
  {
    var over := if step.tool in overrides then overrides[step.tool] else [];
    var params := Update(step.params, over);
    LookupUpdate(step.params, over, x);
    LookupUpdate(step.params, over, "confirm_field");
    if step.tool == "database_tool" {
      LookupUpdate(step.params, over, ConfirmKey(over, step.params));
      LookupPut(params, ConfirmKey(over, step.params), Flag(policy.confirmWrite), x);
    }
  }

  // ------------------------------------------------------- what a tool is given

  /** Looking up finds the value stored under the key, if there is one. */
  lemma {:induction false} LookupIff(ps: Params, key: string, v: Value)
    requires Dictionary(ps)
    ensures Lookup(ps, key) == Some(v) <==> (key, v) in ps
  {
    if ps != [] {
      LookupIff(ps[1..], key, v);
      assert ps == [ps[0]] + ps[1..];
    }
  }

  /** What the context adds: the tenant, the user and the role, under their own names. */
  function FromContext(ctx: Context, x: string): Option<Value> {
    if x == "_tenant_id" then Some(Text(ctx.tenant))
    else if x == "_user_id" then Some(Text(ctx.user))
    else if x == "_user_role" then Some(Text(ctx.role))
    else None
  }

  /** The parameters given to the tool: the call's own first, then what the context adds. */
  ghost predicate GivenFor(params: Params, call: Call) {
    && call.params <= params
    && forall x :: Lookup(params, x) == Either(Lookup(call.params, x), FromContext(call.ctx, x))
  }

  lemma {:induction false} PutAtEnd(ps: Params, key: string, v: Value)
    requires Lookup(ps, key) == None
    ensures Put(ps, key, v) == ps + [(key, v)]
  {
    if ps != [] { PutAtEnd(ps[1..], key, v); }
  }

  lemma SetDefaultAt(ps: Params, key: string, v: Value)
    ensures ps <= SetDefault(ps, key, v)
    ensures forall x :: Lookup(SetDefault(ps, key, v), x) == Either(Lookup(ps, x), if x == key then Some(v) else None)
  {
    if Lookup(ps, key) == None {
      PutAtEnd(ps, key, v);
      forall x ensures Lookup(Put(ps, key, v), x) == if x == key then Some(v) else Lookup(ps, x) {
        LookupPut(ps, key, v, x);
      }
    }
  }

  lemma EnrichedIsGiven(call: Call)
    ensures GivenFor(Enriched(call), call)
  {
    var a := SetDefault(call.params, "_tenant_id", Text(call.ctx.tenant));
    var b := SetDefault(a, "_user_id", Text(call.ctx.user));
    SetDefaultAt(call.params, "_tenant_id", Text(call.ctx.tenant));
    SetDefaultAt(a, "_user_id", Text(call.ctx.user));
    SetDefaultAt(b, "_user_role", Text(call.ctx.role));
  }

  /** The call gets as far as the tool. */
  predicate ReachesTool(hub: Hub, call: Call) {
    && call.tool in hub.registry && call.ctx.role in hub.registry[call.tool].requiredRoles
    && !(hub.registry[call.tool].idempotent && call.key in hub.cache)
  }

  /**
    A tool that is run gets exactly the call's parameters and the context; what it returns is
    answered, recorded with these parameters, and kept if the tool is idempotent; what it raises
    is raised, with nothing recorded.
  */
  lemma ToolGetsItsParameters(hub: Hub, call: Call)
    requires ReachesTool(hub, call)
    ensures exists params | GivenFor(params, call) ::
              var (hub', r) := Invoke(hub, call); var tool := hub.registry[call.tool];
              match tool.run(params)
              case Err(e) =>
                && r == Err(e)
                && hub'.audit == hub.audit && hub'.cache == hub.cache && hub'.metrics == hub.metrics
              case Ok(output) =>
                && r == Ok(InvokeResult(output, |hub.audit|, false))
                && hub'.audit == hub.audit + [AuditEvent(call, params)]
                && hub'.cache == (if tool.idempotent then hub.cache[call.key := Cached(output, |hub.audit|)]
                                  else hub.cache)
                && Count(hub'.metrics, "tool.success") == Count(hub.metrics, "tool.success") + 1
                && forall name | name != "tool.success" :: Count(hub'.metrics, name) == Count(hub.metrics, name)
  {
    EnrichedIsGiven(call);
  }

  /** The answers that need no tool, and what each of them counts. */
  lemma OtherAnswers(hub: Hub, call: Call)
    ensures var (hub', r) := Invoke(hub, call);
      && (call.tool !in hub.registry ==>
            hub' == hub && r == Err(OtherError("tool '" + call.tool + "' is not registered")))
      && (call.tool in hub.registry && call.ctx.role !in hub.registry[call.tool].requiredRoles ==>
            && r == Err(PermissionError("role '" + call.ctx.role + "' cannot invoke '" + call.tool + "'"))
            && OneMore(hub, hub', "tool.permission_denied"))
      && (call.tool in hub.registry && call.ctx.role in hub.registry[call.tool].requiredRoles
          && hub.registry[call.tool].idempotent && call.key in hub.cache ==>
            && r == Ok(InvokeResult(hub.cache[call.key].output, hub.cache[call.key].auditRef, true))
            && OneMore(hub, hub', "tool.idempotency_hit"))
  {
  }

  /** One counter goes up by one, and nothing else changes. */
  ghost predicate OneMore(hub: Hub, hub': Hub, counter: string) {
    && hub' == hub.(metrics := hub'.metrics)
    && Count(hub'.metrics, counter) == Count(hub.metrics, counter) + 1
    && forall name | name != counter :: Count(hub'.metrics, name) == Count(hub.metrics, name)
  }

  /** The same call again: the same output and the same audit reference, from the cache, without a run. */
  lemma SecondCallHits(hub: Hub, call: Call)
    requires ReachesTool(hub, call) && hub.registry[call.tool].idempotent && Invoke(hub, call).1.Ok?
    ensures var (hub1, r1) := Invoke(hub, call); var (hub2, r2) := Invoke(hub1, call);
      && r2.Ok? && r2.value.output == r1.value.output && r2.value.auditRef == r1.value.auditRef
      && r2.value.cacheHit && !r1.value.cacheHit && hub2.runs == hub1.runs && hub2.audit == hub1.audit
  {
  }

  // ------------------------------------------------------------- what is reported

  /** The action of a call: its output and reference, or its error under the code of its kind. */
  lemma ActionReports(tool: string, r: Result<InvokeResult, Exn>)
    ensures var a := ActionOf(tool, r);
      && a.tool == tool
      && (r.Ok? ==> a == Action(tool, Success, Returned(r.value.output), None, Some(r.value.auditRef),
                                RoleChecked(r.value.cacheHit)))
      && (r.Err? && r.error.PermissionError? ==>
            a == Action(tool, Failure, ErrorText(r.error.message), Some("POLICY_DENIED"), None, PermissionDenied))
      && (r.Err? && r.error.OtherError? ==>
            a == Action(tool, Failure, ErrorText(r.error.message), Some("TOOL_EXECUTION_ERROR"), None, NothingApplied))
  {
  }

  /** The names of the tool steps, in order. */
  function ToolNames(steps: seq<Step>): seq<string> {
    if steps == [] then []
    else (if steps[0].ToolStep? then [steps[0].tool] else []) + ToolNames(steps[1..])
  }

  function NamesOf(actions: seq<Action>): seq<string> {
    seq(|actions|, i requires 0 <= i < |actions| => actions[i].tool)
  }

  lemma {:induction false} ToolNamesNext(steps: seq<Step>, step: Step)
    ensures ToolNames(steps + [step]) == ToolNames(steps) + if step.ToolStep? then [step.tool] else []
  {
    if steps == [] {
      assert [step][1..] == [] && steps + [step] == [step];
    } else {
      assert (steps + [step])[0] == steps[0] && (steps + [step])[1..] == steps[1..] + [step];
      ToolNamesNext(steps[1..], step);
    }
  }

  /** One action for each tool step, in their order; with automatic execution off, the gate's alone. */
  lemma {:induction false} OneActionPerToolStep(h: Hashing, hub: Hub, steps: seq<Step>, ctx: Context, policy: Policy,
                                                overrides: map<string, Params>)
    ensures NamesOf(ExecuteSteps(h, hub, steps, ctx, policy, overrides).1) == ToolNames(steps)
    ensures !policy.autoExecute ==>
              Execute(h, hub, steps, ctx, policy, overrides)
              == (hub, [Action("policy_gate", Skipped, Reason("auto_execute_disabled"), None, None, AutoExecuteOff)])
  {
    if steps != [] {
      var init, step := steps[..|steps| - 1], steps[|steps| - 1];
      OneActionPerToolStep(h, hub, init, ctx, policy, overrides);
      ToolNamesNext(init, step);
      assert init + [step] == steps;
      if step.ToolStep? {
        ActionReports(step.tool, Invoke(ExecuteSteps(h, hub, init, ctx, policy, overrides).0,
                                        StepCall(h, step, ctx, policy, overrides)).1);
      }
    }
  }
}
