/**
  The tool hub as a function of its state: registration, role gate, idempotency cache,
  counters and audit log; and the executor's loop over a list of steps. Tools are
  deterministic functions of their parameters that return an output or raise.
*/
module ToolModel {
  import opened Optional
  import opened Keys

  datatype Value = Text(text: string) | Flag(on: bool) | Json(literal: string)

  /** A Python dictionary: keys in insertion order. */
  type Params = seq<(string, Value)>

  type Output = string

  datatype Exn = PermissionError(message: string) | OtherError(message: string)

  datatype Tool = Tool(name: string, requiredRoles: seq<string>, idempotent: bool, run: Params -> Result<Output, Exn>)

  function Lookup(ps: Params, key: string): Option<Value> {
    if ps == [] then None else if ps[0].0 == key then Some(ps[0].1) else Lookup(ps[1..], key)
  }

  /** `ps[key] = v`: an existing key keeps its place. */
  function Put(ps: Params, key: string, v: Value): Params {
    if ps == [] then [(key, v)]
    else if ps[0].0 == key then [(key, v)] + ps[1..]
    else [ps[0]] + Put(ps[1..], key, v)
  }

  function SetDefault(ps: Params, key: string, v: Value): Params {
    if Lookup(ps, key).Some? then ps else Put(ps, key, v)
  }

  function Update(ps: Params, more: Params): Params
    decreases |more|
  {
    if more == [] then ps else Update(Put(ps, more[0].0, more[0].1), more[1..])
  }

  /** How a parameter dictionary is rendered into a key, and how the key is hashed. */
  datatype Hashing = Hashing(render: Params -> string, digest: string -> string)

  ghost predicate Injective(h: Hashing) {
    && (forall a, b | h.render(a) == h.render(b) :: a == b)
    && (forall a, b | h.digest(a) == h.digest(b) :: a == b)
  }

  /** Who executes: fixed during one execute call. */
  datatype Context = Context(role: string, trace: string, tenant: string, user: string)

  datatype Call = Call(tool: string, key: string, ctx: Context, params: Params)

  function KeyOf(h: Hashing, trace: string, tool: string, params: Params): string {
    h.digest(Join(trace, ':', Join(tool, ':', h.render(params))))
  }

  /** The parameters a tool really gets. */
  function Enriched(call: Call): Params {
    SetDefault(SetDefault(SetDefault(call.params, "_tenant_id", Text(call.ctx.tenant)),
                          "_user_id", Text(call.ctx.user)),
               "_user_role", Text(call.ctx.role))
  }

  datatype Cached = Cached(output: Output, auditRef: nat)
  datatype InvokeResult = InvokeResult(output: Output, auditRef: nat, cacheHit: bool)
  datatype AuditEvent = AuditEvent(call: Call, params: Params)

  /** One call that got as far as running its tool. */
  datatype ToolRun = ToolRun(key: string, idempotent: bool, ok: bool)

  datatype Hub = Hub(
    registry: map<string, Tool>,
    cache: map<string, Cached>,
    metrics: map<string, nat>,
    audit: seq<AuditEvent>,
    origins: map<string, Call>,   // history: the call each cache entry was stored for
    runs: seq<ToolRun>)           // history: every tool run

  function Count(metrics: map<string, nat>, name: string): nat {
    if name in metrics then metrics[name] else 0
  }

  function Inc(metrics: map<string, nat>, name: string): map<string, nat> {
    metrics[name := Count(metrics, name) + 1]
  }

  function NotRegistered(name: string): Exn {
    OtherError("tool '" + name + "' is not registered")
  }

  function RoleDenied(role: string, tool: string): Exn {
    PermissionError("role '" + role + "' cannot invoke '" + tool + "'")
  }

  /** Running the tool, and recording the run when it succeeds. */
  function RunTool(hub: Hub, tool: Tool, call: Call): (Hub, Result<InvokeResult, Exn>) {
    var params := Enriched(call);
    match tool.run(params)
    case Err(e) => (hub.(runs := hub.runs + [ToolRun(call.key, tool.idempotent, false)]), Err(e))
    case Ok(output) =>
      var ref := |hub.audit|;
      (hub.(metrics := Inc(hub.metrics, "tool.success"),
            audit := hub.audit + [AuditEvent(call, params)],
            runs := hub.runs + [ToolRun(call.key, tool.idempotent, true)],
            cache := if tool.idempotent then hub.cache[call.key := Cached(output, ref)] else hub.cache,
            origins := if tool.idempotent then hub.origins[call.key := call] else hub.origins),
       Ok(InvokeResult(output, ref, false)))
  }

  function Invoke(hub: Hub, call: Call): (Hub, Result<InvokeResult, Exn>) {
    if call.tool !in hub.registry then (hub, Err(NotRegistered(call.tool)))
    else
      var tool := hub.registry[call.tool];
      if call.ctx.role !in tool.requiredRoles then
        (hub.(metrics := Inc(hub.metrics, "tool.permission_denied")), Err(RoleDenied(call.ctx.role, call.tool)))
      else if tool.idempotent && call.key in hub.cache then
        var cached := hub.cache[call.key];
        (hub.(metrics := Inc(hub.metrics, "tool.idempotency_hit")),
            Ok(InvokeResult(cached.output, cached.auditRef, true)))
      else RunTool(hub, tool, call)
  }

  /** The same call on a hub that has no cache. */
  function Direct(registry: map<string, Tool>, call: Call): Result<Output, Exn> {
    if call.tool !in registry then Err(NotRegistered(call.tool))
    else if call.ctx.role !in registry[call.tool].requiredRoles then Err(RoleDenied(call.ctx.role, call.tool))
    else registry[call.tool].run(Enriched(call))
  }

  // ----------------------------------------------------------------- executor

  datatype Step = ToolStep(tool: string, params: Params) | OtherStep(kind: string)

  datatype Policy = Policy(autoExecute: bool, confirmWrite: bool)

  datatype ActionStatus = Success | Skipped | Failure

  datatype Payload = Returned(output: Output) | ErrorText(text: string) | Reason(reason: string)

  datatype Applied = RoleChecked(cacheHit: bool) | PermissionDenied | AutoExecuteOff | NothingApplied

  datatype Action = Action(tool: string, status: ActionStatus, payload: Payload, errorCode: Option<string>,
                           auditRef: Option<nat>, applied: Applied)

  function StrOf(v: Value): string {
    match v
    case Text(t) => t
    case Flag(b) => if b then "True" else "False"
    case Json(l) => l
  }

  /** The parameters of a step: overrides win, and a database call gets its confirmation flag. */
  function StepParams(step: Step, policy: Policy, overrides: map<string, Params>): Params
    requires step.ToolStep?
  {
    var params := Update(step.params, if step.tool in overrides then overrides[step.tool] else []);
    if step.tool != "database_tool" then params
    else
      var field := Lookup(params, "confirm_field");
      SetDefault(params, if field.Some? then StrOf(field.value) else "confirm_write", Flag(policy.confirmWrite))
  }

  function StepCall(h: Hashing, step: Step, ctx: Context, policy: Policy, overrides: map<string, Params>): Call
    requires step.ToolStep?
  {
    var params := StepParams(step, policy, overrides);
    Call(step.tool, KeyOf(h, ctx.trace, step.tool, params), ctx, params)
  }

  function FailedAction(tool: string, e: Exn): Action {
    match e
    case PermissionError(m) => Action(tool, Failure, ErrorText(m), Some("POLICY_DENIED"), None, PermissionDenied)
    case OtherError(m) => Action(tool, Failure, ErrorText(m), Some("TOOL_EXECUTION_ERROR"), None, NothingApplied)
  }

  function ActionOf(tool: string, r: Result<InvokeResult, Exn>): Action {
    match r
    case Ok(v) => Action(tool, Success, Returned(v.output), None, Some(v.auditRef), RoleChecked(v.cacheHit))
    case Err(e) => FailedAction(tool, e)
  }

  function PolicyGate(): Action {
    Action("policy_gate", Skipped, Reason("auto_execute_disabled"), None, None, AutoExecuteOff)
  }

  /** The loop over the steps, from the left. */
  function ExecuteSteps(h: Hashing, hub: Hub, steps: seq<Step>, ctx: Context, policy: Policy,
                        overrides: map<string, Params>):
    (Hub, seq<Action>)
  {
    if steps == [] then (hub, [])
    else
      var step := steps[|steps| - 1];
      var (hub', actions) := ExecuteSteps(h, hub, steps[..|steps| - 1], ctx, policy, overrides);
      if step.OtherStep? then (hub', actions)
      else
        var (hub'', r) := Invoke(hub', StepCall(h, step, ctx, policy, overrides));
        (hub'', actions + [ActionOf(step.tool, r)])
  }

  function Execute(h: Hashing, hub: Hub, steps: seq<Step>, ctx: Context, policy: Policy,
                   overrides: map<string, Params>):
    (Hub, seq<Action>)
  {
    if !policy.autoExecute then (hub, [PolicyGate()]) else ExecuteSteps(h, hub, steps, ctx, policy, overrides)
  }

  /** What a client sees of an action whatever the cache did. */
  datatype Visible = Visible(tool: string, status: ActionStatus, payload: Payload, errorCode: Option<string>)

  function View(a: Action): Visible {
    Visible(a.tool, a.status, a.payload, a.errorCode)
  }

  function DirectView(tool: string, r: Result<Output, Exn>): Visible {
    match r
    case Ok(output) => Visible(tool, Success, Returned(output), None)
    case Err(e) => View(FailedAction(tool, e))
  }

  /** The same steps on a hub without a cache: every tool is run every time. */
  function DirectSteps(h: Hashing, registry: map<string, Tool>, steps: seq<Step>, ctx: Context, policy: Policy,
                       overrides: map<string, Params>): seq<Visible>
  {
    if steps == [] then []
    else
      var step := steps[|steps| - 1];
      var before := DirectSteps(h, registry, steps[..|steps| - 1], ctx, policy, overrides);
      if step.OtherStep? then before
      else before + [DirectView(step.tool, Direct(registry, StepCall(h, step, ctx, policy, overrides)))]
  }

  function Views(actions: seq<Action>): seq<Visible> {
    seq(|actions|, i requires 0 <= i < |actions| => View(actions[i]))
  }
}
