/**
 * The policy-evaluation loop of `DefaultAuthorizationService`.
 *
 * A call builds one authorization context from (policy, user, resources),
 * runs every global handler in list order and then every requirement of the
 * policy in declared order, and answers `false` at the first check that says
 * no. Each awaited check completes before the next one starts, so the model
 * is a sequential loop; the ghost trace records every check that ran.
 */
module Authorization {
  import opened Wrappers

  /** A key/value assertion about a user; claim types may repeat. */
  datatype Claim = Claim(claimType: string, value: string)

  /** The already-authenticated user handed to the service. */
  datatype ClaimsPrincipal = ClaimsPrincipal(claims: seq<Claim>)

  /** A resource object; the service passes it on without looking inside. */
  datatype Resource = Resource(id: nat)

  /**
   * A global handler (`IAuthorizationPolicyHandler.AuthorizeAsync`) or a
   * policy requirement (`IAuthorizationRequirement.CheckAsync`). What it
   * checks is foreign code: its answer on a context is the arbitrary
   * function `verdict`.
   */
  class Check {
    const verdict: AuthorizationContext -> bool

    constructor (verdict: AuthorizationContext -> bool)
      ensures this.verdict == verdict
    {
      this.verdict := verdict;
    }
  }

  /** A policy; `requirements` is `None` when the policy's collection is null. */
  datatype AuthorizationPolicy = AuthorizationPolicy(requirements: Option<seq<Check>>)

  /** The one context every check of a call receives. */
  datatype AuthorizationContext = AuthorizationContext(
    policy: AuthorizationPolicy,
    user: Option<ClaimsPrincipal>,
    resources: seq<Resource>)

  /** The configured policies, looked up by name as a partial map. */
  datatype AuthorizationOptions = AuthorizationOptions(policies: map<string, AuthorizationPolicy>) {
    function GetPolicy(name: string): (policy: Option<AuthorizationPolicy>) {
      if name in policies then Some(policies[name]) else None
    }
  }

  /** Which of the two ordered collections a check came from. */
  datatype Phase = GlobalHandler | PolicyRequirement

  /** One check that ran: its collection, its position there, and the context it got. */
  datatype Invocation = Invocation(phase: Phase, index: nat, context: AuthorizationContext)

  /** The outcome of an evaluation together with the checks it ran, in order. */
  datatype Evaluation = Evaluation(allowed: bool, trace: seq<Invocation>)

  /** The requirements a policy declares, a null collection read as none. */
  function RequirementList(policy: AuthorizationPolicy): (requirements: seq<Check>) {
    match policy.requirements
    case None => []
    case Some(requirements) => requirements
  }

  /** The invocations of positions `from` up to (not including) `to` of one collection. */
  function Calls(phase: Phase, from: nat, to: nat, ctx: AuthorizationContext): (calls: seq<Invocation>)
    requires from <= to
  {
    seq(to - from, t requires 0 <= t < to - from => Invocation(phase, from + t, ctx))
  }

  /** Every check in `checks` says yes on `ctx`. */
  ghost predicate AllPass(checks: seq<Check>, ctx: AuthorizationContext) {
    forall k :: 0 <= k < |checks| ==> checks[k].verdict(ctx)
  }

  /** Position `k` is the first check in `checks` that says no on `ctx`. */
  ghost predicate FirstFailure(checks: seq<Check>, ctx: AuthorizationContext, k: nat) {
    k < |checks| && !checks[k].verdict(ctx) &&
    forall j :: 0 <= j < k ==> checks[j].verdict(ctx)
  }

  /** The reference semantics of one `foreach` loop, from position `i` on. The checks it
      runs are a prefix of the remaining ones, in order and on the one context; a yes means
      it ran them all, and a no comes from the last check it ran. */
  function ScanFrom(checks: seq<Check>, phase: Phase, ctx: AuthorizationContext, i: nat): (e: Evaluation)
    requires i <= |checks|
    ensures e.trace <= Calls(phase, i, |checks|, ctx)
    ensures e.allowed ==> e.trace == Calls(phase, i, |checks|, ctx)
    ensures !e.allowed ==> e.trace != [] && !checks[i + |e.trace| - 1].verdict(ctx)
    decreases |checks| - i
  {
    if i == |checks| then Evaluation(true, [])
    else
      var call := Invocation(phase, i, ctx);
      assert Calls(phase, i, |checks|, ctx) == [call] + Calls(phase, i + 1, |checks|, ctx);
      if !checks[i].verdict(ctx) then Evaluation(false, [call])
      else
        var rest := ScanFrom(checks, phase, ctx, i + 1);
        Evaluation(rest.allowed, [call] + rest.trace)
  }

  /** The reference semantics of `AuthorizeAsync` on a policy object. The checks it runs are
      a prefix of the handlers followed by the requirements, so each runs at most once and all
      on the one context; a denial comes from the last check run, which said no. */
  function Evaluate(handlers: seq<Check>, policy: AuthorizationPolicy, ctx: AuthorizationContext): (e: Evaluation)
    ensures e.trace <= Calls(GlobalHandler, 0, |handlers|, ctx) +
                       Calls(PolicyRequirement, 0, |RequirementList(policy)|, ctx)
    ensures !e.allowed ==> e.trace != []
    ensures !e.allowed ==>
      (var last := e.trace[|e.trace| - 1];
       if last.phase == GlobalHandler then !handlers[last.index].verdict(ctx)
       else !RequirementList(policy)[last.index].verdict(ctx))
  {
    var hs := Calls(GlobalHandler, 0, |handlers|, ctx);
    var rs := Calls(PolicyRequirement, 0, |RequirementList(policy)|, ctx);
    var h := ScanFrom(handlers, GlobalHandler, ctx, 0);
    if !h.allowed then
      assert forall t :: 0 <= t < |h.trace| ==> h.trace[t] == hs[t] == (hs + rs)[t];
      h
    else
      match policy.requirements
      case None =>
        assert hs + rs == hs;
        h
      case Some(requirements) =>
        var r := ScanFrom(requirements, PolicyRequirement, ctx, 0);
        assert forall t :: 0 <= t < |r.trace| ==> r.trace[t] == rs[t];
        Evaluation(r.allowed, h.trace + r.trace)
  }

  /** A scan answers yes exactly when every remaining check does, and then runs them all;
      whatever it answers, it runs a prefix of the remaining checks in order. */
  lemma {:induction false} ScanFromFacts(checks: seq<Check>, phase: Phase, ctx: AuthorizationContext, i: nat)
    requires i <= |checks|
    ensures var e := ScanFrom(checks, phase, ctx, i);
      (e.allowed <==> forall j :: i <= j < |checks| ==> checks[j].verdict(ctx)) &&
      (e.allowed ==> e.trace == Calls(phase, i, |checks|, ctx)) &&
      e.trace <= Calls(phase, i, |checks|, ctx)
    decreases |checks| - i
  {
    if i < |checks| {
      var call := Invocation(phase, i, ctx);
      var all := Calls(phase, i, |checks|, ctx);
      assert all == [call] + Calls(phase, i + 1, |checks|, ctx);
      if checks[i].verdict(ctx) {
        ScanFromFacts(checks, phase, ctx, i + 1);
      }
    }
  }

  /** When position `k` is the first remaining check to say no, a scan answers no
      after running exactly the checks `i` through `k`. */
  lemma {:induction false} ScanFromFirstFailure(checks: seq<Check>, phase: Phase, ctx: AuthorizationContext, i: nat, k: nat)
    requires i <= k < |checks|
    requires !checks[k].verdict(ctx)
    requires forall j :: i <= j < k ==> checks[j].verdict(ctx)
    ensures ScanFrom(checks, phase, ctx, i) == Evaluation(false, Calls(phase, i, k + 1, ctx))
    decreases k - i
  {
    if i < k {
      ScanFromFirstFailure(checks, phase, ctx, i + 1, k);
      assert Calls(phase, i, k + 1, ctx) == [Invocation(phase, i, ctx)] + Calls(phase, i + 1, k + 1, ctx);
    }
  }

  /** The decision is the conjunction of every handler's and every requirement's answer. */
  lemma EvaluateAllowedIff(handlers: seq<Check>, policy: AuthorizationPolicy, ctx: AuthorizationContext)
    ensures Evaluate(handlers, policy, ctx).allowed <==>
            AllPass(handlers, ctx) && AllPass(RequirementList(policy), ctx)
  {
    ScanFromFacts(handlers, GlobalHandler, ctx, 0);
    ScanFromFacts(RequirementList(policy), PolicyRequirement, ctx, 0);
  }

  /** When every check passes, every handler runs and then every requirement runs. */
  lemma EvaluateAllPass(handlers: seq<Check>, policy: AuthorizationPolicy, ctx: AuthorizationContext)
    requires AllPass(handlers, ctx) && AllPass(RequirementList(policy), ctx)
    ensures Evaluate(handlers, policy, ctx) ==
            Evaluation(true, Calls(GlobalHandler, 0, |handlers|, ctx) +
                             Calls(PolicyRequirement, 0, |RequirementList(policy)|, ctx))
  {
    ScanFromFacts(handlers, GlobalHandler, ctx, 0);
    ScanFromFacts(RequirementList(policy), PolicyRequirement, ctx, 0);
    assert Calls(PolicyRequirement, 0, 0, ctx) == [];
    assert Calls(GlobalHandler, 0, |handlers|, ctx) + [] == Calls(GlobalHandler, 0, |handlers|, ctx);
  }

  /** If handler `k` (0-based) is the first to say no, the answer is no, handlers
      0 through `k` ran, and no requirement ran. */
  lemma HandlerShortCircuit(handlers: seq<Check>, policy: AuthorizationPolicy, ctx: AuthorizationContext, k: nat)
    requires FirstFailure(handlers, ctx, k)
    ensures Evaluate(handlers, policy, ctx) == Evaluation(false, Calls(GlobalHandler, 0, k + 1, ctx))
    ensures |Evaluate(handlers, policy, ctx).trace| == k + 1
  {
    ScanFromFirstFailure(handlers, GlobalHandler, ctx, 0, k);
  }

  /** If every handler says yes and requirement `k` (0-based) is the first to say no,
      the answer is no, every handler ran, and requirements 0 through `k` ran. */
  lemma RequirementShortCircuit(handlers: seq<Check>, policy: AuthorizationPolicy, ctx: AuthorizationContext, k: nat)
    requires AllPass(handlers, ctx)
    requires FirstFailure(RequirementList(policy), ctx, k)
    ensures Evaluate(handlers, policy, ctx) ==
            Evaluation(false, Calls(GlobalHandler, 0, |handlers|, ctx) + Calls(PolicyRequirement, 0, k + 1, ctx))
    ensures |Evaluate(handlers, policy, ctx).trace| == |handlers| + k + 1
  {
    ScanFromFacts(handlers, GlobalHandler, ctx, 0);
    ScanFromFirstFailure(RequirementList(policy), PolicyRequirement, ctx, 0, k);
  }

  /** The checks that ran are a prefix of the handlers in list order followed by the
      requirements in declared order, all on the same context; a requirement ran only
      if every handler said yes. */
  lemma EvaluateTraceOrdered(handlers: seq<Check>, policy: AuthorizationPolicy, ctx: AuthorizationContext)
    ensures var trace := Evaluate(handlers, policy, ctx).trace;
      trace <= Calls(GlobalHandler, 0, |handlers|, ctx) +
               Calls(PolicyRequirement, 0, |RequirementList(policy)|, ctx) &&
      forall i :: 0 <= i < |trace| && trace[i].phase == PolicyRequirement ==> AllPass(handlers, ctx)
  {
    var hs := Calls(GlobalHandler, 0, |handlers|, ctx);
    var rs := Calls(PolicyRequirement, 0, |RequirementList(policy)|, ctx);
    var h := ScanFrom(handlers, GlobalHandler, ctx, 0);
    ScanFromFacts(handlers, GlobalHandler, ctx, 0);
    ScanFromFacts(RequirementList(policy), PolicyRequirement, ctx, 0);
    if !h.allowed {
      assert h.trace <= hs + rs by {
        assert forall i :: 0 <= i < |h.trace| ==> h.trace[i] == hs[i] == (hs + rs)[i];
      }
      assert forall i :: 0 <= i < |h.trace| ==> h.trace[i].phase == GlobalHandler;
    } else if policy.requirements.Some? {
      var r := ScanFrom(RequirementList(policy), PolicyRequirement, ctx, 0);
      assert h.trace + r.trace <= hs + rs by {
        assert forall i :: 0 <= i < |r.trace| ==> r.trace[i] == rs[i];
      }
    } else {
      assert hs + rs == hs;
    }
  }

  /** With a null or empty requirement collection, passing every handler allows. */
  lemma EmptyRequirementsAllow(handlers: seq<Check>, policy: AuthorizationPolicy, ctx: AuthorizationContext)
    requires RequirementList(policy) == []
    requires AllPass(handlers, ctx)
    ensures Evaluate(handlers, policy, ctx) == Evaluation(true, Calls(GlobalHandler, 0, |handlers|, ctx))
  {
    ScanFromFacts(handlers, GlobalHandler, ctx, 0);
  }

  /** With no global handlers, the decision and the checks run are those of the
      policy's requirements alone. */
  lemma NoHandlersOnlyRequirements(policy: AuthorizationPolicy, ctx: AuthorizationContext)
    ensures Evaluate([], policy, ctx).allowed <==> AllPass(RequirementList(policy), ctx)
    ensures Evaluate([], policy, ctx).trace <= Calls(PolicyRequirement, 0, |RequirementList(policy)|, ctx)
  {
    ScanFromFacts(RequirementList(policy), PolicyRequirement, ctx, 0);
  }

  /** `DefaultAuthorizationService`: the global handlers and the options are fixed
      when the service is built. */
  class DefaultAuthorizationService {
    const handlers: seq<Check>
    const options: AuthorizationOptions

    /** A null handler collection gives an empty list; otherwise the handlers keep
        their order. */
    constructor (options: AuthorizationOptions, handlers: Option<seq<Check>>)
      ensures handlers.None? ==> this.handlers == []
      ensures handlers.Some? ==> this.handlers == handlers.value
      ensures this.options == options
    {
      if handlers.None? {
        this.handlers := [];
      } else {
        this.handlers := handlers.value;
      }
      this.options := options;
    }

    /** `AuthorizeAsync(IAuthorizationPolicy, …)`. */
    method Authorize(policy: AuthorizationPolicy, user: Option<ClaimsPrincipal>, resources: seq<Resource>)
      returns (allowed: bool, ghost trace: seq<Invocation>)
      ensures allowed <==> AllPass(handlers, AuthorizationContext(policy, user, resources)) &&
                           AllPass(RequirementList(policy), AuthorizationContext(policy, user, resources))
      ensures allowed == Evaluate(handlers, policy, AuthorizationContext(policy, user, resources)).allowed
      ensures trace == Evaluate(handlers, policy, AuthorizationContext(policy, user, resources)).trace
      ensures trace <= Calls(GlobalHandler, 0, |handlers|, AuthorizationContext(policy, user, resources)) +
                       Calls(PolicyRequirement, 0, |RequirementList(policy)|, AuthorizationContext(policy, user, resources))
    {
      var context := AuthorizationContext(policy, user, resources);
      trace := [];
      for i := 0 to |handlers|
        invariant forall j :: 0 <= j < i ==> handlers[j].verdict(context)
        invariant trace == Calls(GlobalHandler, 0, i, context)
      {
        var handler := handlers[i];
        trace := trace + [Invocation(GlobalHandler, i, context)];
        if !handler.verdict(context) {
          HandlerShortCircuit(handlers, policy, context, i);
          EvaluateAllowedIff(handlers, policy, context);
          return false, trace;
        }
      }
      ghost var handlerTrace := trace;
      if policy.requirements.Some? {
        var requirements := policy.requirements.value;
        for i := 0 to |requirements|
          invariant forall j :: 0 <= j < i ==> requirements[j].verdict(context)
          invariant trace == handlerTrace + Calls(PolicyRequirement, 0, i, context)
        {
          var requirement := requirements[i];
          trace := trace + [Invocation(PolicyRequirement, i, context)];
          if !requirement.verdict(context) {
            RequirementShortCircuit(handlers, policy, context, i);
            EvaluateAllowedIff(handlers, policy, context);
            return false, trace;
          }
        }
      }
      EvaluateAllPass(handlers, policy, context);
      EvaluateAllowedIff(handlers, policy, context);
      return true, trace;
    }

    /** `AuthorizeAsync(string policyName, …)`: an unknown name denies without running
        any check; a known one behaves as the by-object call on the resolved policy. */
    method AuthorizeByName(policyName: string, user: Option<ClaimsPrincipal>, resources: seq<Resource>)
      returns (allowed: bool, ghost trace: seq<Invocation>)
      ensures policyName !in options.policies ==> !allowed
      ensures policyName !in options.policies ==> trace == []
      ensures policyName in options.policies ==>
        allowed == Evaluate(handlers, options.policies[policyName],
                            AuthorizationContext(options.policies[policyName], user, resources)).allowed
      ensures policyName in options.policies ==>
        trace == Evaluate(handlers, options.policies[policyName],
                          AuthorizationContext(options.policies[policyName], user, resources)).trace
    {
      var policy := options.GetPolicy(policyName);
      if policy.None? {
        return false, [];
      }
      allowed, trace := Authorize(policy.value, user, resources);
    }
  }
}
