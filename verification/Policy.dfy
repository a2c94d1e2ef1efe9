/** Policy admission: the reasons against a call, the rule that turns them into an outcome, and runs of admissions. */
module Policy {
  import opened Results
  import opened Texts

  const MAX_SAFE_INTEGER: int := 9_007_199_254_740_991

  const CAPABILITIES: set<string> := {
    "inference:invoke", "mandates:read", "mandates:write", "receipts:read", "credentials:issue", "credentials:revoke",
    "agents:write", "policies:read", "policies:write", "mandates:admin", "providers:read", "providers:write",
    "sandbox:run"
  }

  /** A date text: its time, or none when it does not parse. */
  type Date = Option<int>

  datatype Mode = DryRun | Enforce | Paused

  datatype Limits = Limits(maxPerCall: int, maxHourly: int, maxDaily: int, maxRequestsPerMinute: int,
                           maxInputTokens: int, maxOutputTokens: int)

  datatype Shadow = Shadow(priorWindowSpend: int, windowSeconds: int, targetMinimumObservations: int,
                           siblingMinimumForScoring: int, siblingMinimumForIntervention: int, confidenceConstant: int,
                           divergenceThresholdBps: int)

  datatype Class = Class(id: string, maxCostPerCall: int, maxInvocationsPerBranch: int, aggregateBudget: int,
                         minimumInputTokens: int, shadow: Option<Shadow>)

  datatype Version = Version(id: string, organizationId: string, version: int, mode: Mode,
                             allowedProviders: seq<string>, allowedModels: seq<string>, requiredCapability: string,
                             limits: Limits, classes: seq<Class>, createdAt: Date)

  datatype Workload = Workload(branchId: string, workloadClass: string, branchAuthorized: bool, branchMaximum: int,
                               branchSpent: int, branchExpiresAt: Option<Date>, classAuthorized: bool,
                               classInvocations: int, classSpent: int)

  datatype Input = Input(now: Date, mandateActive: bool, mandateExpiresAt: Option<Date>, agentAuthorized: bool,
                         agentCapabilities: seq<string>, provider: string, model: string, estimatedCost: int,
                         inputTokens: int, maxOutputTokens: int, spentHour: int, spentDay: int, mandateSpent: int,
                         mandateMaximum: int, requestsLastMinute: int, workload: Option<Workload>)

  datatype Reason =
    | MandateInactive
    | MandateExpired
    | AgentNotAuthorized
    | CapabilityMissing
    | ProviderNotAllowed
    | ModelNotAllowed
    | PerCallLimitExceeded
    | HourlyLimitExceeded
    | DailyLimitExceeded
    | MandateBudgetExceeded
    | RateLimitExceeded
    | InputTokenLimitExceeded
    | OutputTokenLimitExceeded
    | WorkloadClassRequired
    | BranchNotAuthorized
    | BranchExpired
    | BranchBudgetExceeded
    | WorkloadClassNotAllowed
    | WorkloadClassPerCallLimitExceeded
    | WorkloadClassInvocationLimitExceeded
    | WorkloadClassBudgetExceeded
    | WorkloadClassShapeMismatch
    | PolicyPaused

  datatype Outcome = Allow | Deny

  datatype Decision = Decision(outcome: Outcome, wouldOutcome: Outcome, enforced: bool, reasons: seq<Reason>)

  // ----- validation -----

  predicate SafeInteger(n: int) {
    -MAX_SAFE_INTEGER <= n <= MAX_SAFE_INTEGER
  }

  predicate Distinct(s: seq<string>) {
    forall i, j :: 0 <= i < j < |s| ==> s[i] != s[j]
  }

  function UniqueListError(values: seq<string>, prefix: string): Option<string> {
    if |values| == 0 || exists i :: 0 <= i < |values| && Blank(values[i]) then Some(prefix + "_REQUIRED")
    else if !Distinct(values) then Some(prefix + "_DUPLICATE")
    else None
  }

  predicate ClassIdValid(id: string) {
    && 1 <= |id| <= 64
    && 'a' <= id[0] <= 'z'
    && forall i :: 1 <= i < |id| ==> 'a' <= id[i] <= 'z' || '0' <= id[i] <= '9' || id[i] in "_.-"
  }

  function ClassError(c: Class): Option<string> {
    if || c.maxCostPerCall <= 0 || c.aggregateBudget <= 0 || c.aggregateBudget < c.maxCostPerCall
       || !SafeInteger(c.maxInvocationsPerBranch) || c.maxInvocationsPerBranch < 1
       || !SafeInteger(c.minimumInputTokens) || c.minimumInputTokens < 0
    then Some("WORKLOAD_CLASS_LIMIT_INVALID")
    else match c.shadow
      case None => None
      case Some(s) =>
        var counts := [s.windowSeconds, s.targetMinimumObservations, s.siblingMinimumForScoring,
                       s.siblingMinimumForIntervention, s.confidenceConstant, s.divergenceThresholdBps];
        if || s.priorWindowSpend <= 0
           || (exists n :: n in counts && (!SafeInteger(n) || n < 1))
           || s.siblingMinimumForIntervention < s.siblingMinimumForScoring
        then Some("WORKLOAD_CLASS_SHADOW_INVALID")
        else None
  }

  function FirstClassError(classes: seq<Class>): (r: Option<string>)
    ensures r.None? ==> forall i :: 0 <= i < |classes| ==> ClassError(classes[i]).None?
  {
    if classes == [] then None
    else if ClassError(classes[0]).Some? then ClassError(classes[0])
    else FirstClassError(classes[1..])
  }

  function ClassesError(classes: seq<Class>): Option<string> {
    if exists i :: 0 <= i < |classes| && !ClassIdValid(classes[i].id) then Some("WORKLOAD_CLASS_ID_INVALID")
    else if exists i, j :: 0 <= i < j < |classes| && classes[i].id == classes[j].id
        then Some("WORKLOAD_CLASS_DUPLICATE")
    else FirstClassError(classes)
  }

  function LimitsError(l: Limits): Option<string> {
    if l.maxPerCall < 0 then Some("POLICY_LIMIT_INVALID:maxPerCallAtomic")
    else if l.maxHourly < 0 then Some("POLICY_LIMIT_INVALID:maxHourlyAtomic")
    else if l.maxDaily < 0 then Some("POLICY_LIMIT_INVALID:maxDailyAtomic")
    else if !SafeInteger(l.maxRequestsPerMinute) || l.maxRequestsPerMinute < 0
        then Some("POLICY_LIMIT_INVALID:maxRequestsPerMinute")
    else if !SafeInteger(l.maxInputTokens) || l.maxInputTokens < 0 then Some("POLICY_LIMIT_INVALID:maxInputTokens")
    else if !SafeInteger(l.maxOutputTokens) || l.maxOutputTokens < 0 then Some("POLICY_LIMIT_INVALID:maxOutputTokens")
    else None
  }

  function PolicyError(p: Version): Option<string> {
    if Blank(p.id) then Some("POLICY_ID_REQUIRED")
    else if Blank(p.organizationId) then Some("POLICY_ORGANIZATION_REQUIRED")
    else if p.version < 1 then Some("POLICY_VERSION_INVALID")
    else if p.createdAt.None? then Some("POLICY_CREATED_AT_INVALID")
    else if p.requiredCapability !in CAPABILITIES then Some("POLICY_CAPABILITY_INVALID")
    else if UniqueListError(p.allowedProviders, "POLICY_PROVIDER").Some?
        then UniqueListError(p.allowedProviders, "POLICY_PROVIDER")
    else if UniqueListError(p.allowedModels, "POLICY_MODEL").Some? then UniqueListError(p.allowedModels, "POLICY_MODEL")
    else if ClassesError(p.classes).Some? then ClassesError(p.classes)
    else LimitsError(p.limits)
  }

  function InputError(i: Input): Option<string> {
    if i.now.None? then Some("POLICY_EVALUATION_TIME_INVALID")
    else if i.mandateExpiresAt == Some(None) then Some("MANDATE_EXPIRY_INVALID")
    else if Blank(i.provider) then Some("POLICY_EVALUATION_PROVIDER_REQUIRED")
    else if Blank(i.model) then Some("POLICY_EVALUATION_MODEL_REQUIRED")
    else if || !Distinct(i.agentCapabilities)
            || exists k :: 0 <= k < |i.agentCapabilities| && i.agentCapabilities[k] !in CAPABILITIES
    then Some("POLICY_EVALUATION_CAPABILITY_INVALID")
    else if i.estimatedCost < 0 || i.spentHour < 0 || i.spentDay < 0 || i.mandateSpent < 0 || i.mandateMaximum < 0
    then Some("POLICY_EVALUATION_AMOUNT_INVALID")
    else if || !SafeInteger(i.inputTokens) || i.inputTokens < 0
            || !SafeInteger(i.maxOutputTokens) || i.maxOutputTokens < 0
            || !SafeInteger(i.requestsLastMinute) || i.requestsLastMinute < 0
    then Some("POLICY_EVALUATION_COUNT_INVALID")
    else None
  }

  // ----- the reasons, one by one -----

  /** The class a call names, the first with that id. */
  function FindClass(classes: seq<Class>, id: string): (r: Option<Class>)
    ensures r.Some? ==> r.value.id == id
  {
    if classes == [] then None
    else if classes[0].id == id then Some(classes[0])
    else FindClass(classes[1..], id)
  }

  /** Time `at` has passed at `now`; a branch expiry that does not parse never passes. */
  predicate Passed(at: Option<Date>, now: Date) {
    at.Some? && at.value.Some? && now.Some? && at.value.value <= now.value
  }

  /** The class an authorized workload may use. */
  function AllowedClass(p: Version, w: Workload): Option<Class> {
    if w.classAuthorized then FindClass(p.classes, w.workloadClass) else None
  }

  /** The conditions that do not concern the workload. */
  predicate CallHolds(p: Version, i: Input, r: Reason) {
    match r
    case MandateInactive => !i.mandateActive
    case MandateExpired => Passed(i.mandateExpiresAt, i.now)
    case AgentNotAuthorized => !i.agentAuthorized
    case CapabilityMissing => p.requiredCapability !in i.agentCapabilities
    case ProviderNotAllowed => i.provider !in p.allowedProviders
    case ModelNotAllowed => i.model !in p.allowedModels
    case PerCallLimitExceeded => i.estimatedCost > p.limits.maxPerCall
    case HourlyLimitExceeded => i.spentHour + i.estimatedCost > p.limits.maxHourly
    case DailyLimitExceeded => i.spentDay + i.estimatedCost > p.limits.maxDaily
    case MandateBudgetExceeded => i.mandateSpent + i.estimatedCost > i.mandateMaximum
    case RateLimitExceeded => i.requestsLastMinute >= p.limits.maxRequestsPerMinute
    case InputTokenLimitExceeded => i.inputTokens > p.limits.maxInputTokens
    case OutputTokenLimitExceeded => i.maxOutputTokens > p.limits.maxOutputTokens
    case _ => false
  }

  /** The conditions on an authorized workload and on the class it may use. */
  predicate WorkloadHolds(i: Input, w: Workload, c: Option<Class>, r: Reason) {
    match r
    case BranchExpired => Passed(w.branchExpiresAt, i.now)
    case BranchBudgetExceeded => w.branchSpent + i.estimatedCost > w.branchMaximum
    case WorkloadClassNotAllowed => c.None?
    case WorkloadClassPerCallLimitExceeded => c.Some? && i.estimatedCost > c.value.maxCostPerCall
    case WorkloadClassInvocationLimitExceeded => c.Some? && w.classInvocations >= c.value.maxInvocationsPerBranch
    case WorkloadClassBudgetExceeded => c.Some? && w.classSpent + i.estimatedCost > c.value.aggregateBudget
    case WorkloadClassShapeMismatch => c.Some? && i.inputTokens < c.value.minimumInputTokens
    case _ => false
  }

  predicate Holds(p: Version, i: Input, r: Reason) {
    if Position(r) < CALL_CHECKS then CallHolds(p, i, r)
    else if p.classes == [] then false
    else match i.workload
      case None => r.WorkloadClassRequired?
      case Some(w) => if w.branchAuthorized then WorkloadHolds(i, w, AllowedClass(p, w), r) else r.BranchNotAuthorized?
  }

  /** The place of each reason in the order of the checks. */
  function Position(r: Reason): nat {
    match r
    case MandateInactive => 0
    case MandateExpired => 1
    case AgentNotAuthorized => 2
    case CapabilityMissing => 3
    case ProviderNotAllowed => 4
    case ModelNotAllowed => 5
    case PerCallLimitExceeded => 6
    case HourlyLimitExceeded => 7
    case DailyLimitExceeded => 8
    case MandateBudgetExceeded => 9
    case RateLimitExceeded => 10
    case InputTokenLimitExceeded => 11
    case OutputTokenLimitExceeded => 12
    case WorkloadClassRequired => 13
    case BranchNotAuthorized => 14
    case BranchExpired => 15
    case BranchBudgetExceeded => 16
    case WorkloadClassNotAllowed => 17
    case WorkloadClassPerCallLimitExceeded => 18
    case WorkloadClassInvocationLimitExceeded => 19
    case WorkloadClassBudgetExceeded => 20
    case WorkloadClassShapeMismatch => 21
    case PolicyPaused => 22
  }

  const CALL_CHECKS: nat := 13
  const AUTHORITY_CHECKS: nat := 6
  const SPEND_CHECKS: nat := 10
  const BRANCH_CHECKS: nat := 15
  const WORKLOAD_CHECKS: nat := 18
  const CHECKS: nat := 22

  /** The check at a place. */
  function Check(n: nat): (r: Reason)
    requires n < CHECKS
    ensures Position(r) == n
  {
    if n < 6 then
      if n == 0 then MandateInactive else if n == 1 then MandateExpired else if n == 2 then AgentNotAuthorized
      else if n == 3 then CapabilityMissing else if n == 4 then ProviderNotAllowed else ModelNotAllowed
    else if n < 13 then
      if n == 6 then PerCallLimitExceeded else if n == 7 then HourlyLimitExceeded else if n == 8 then DailyLimitExceeded
      else if n == 9 then MandateBudgetExceeded else if n == 10 then RateLimitExceeded
      else if n == 11 then InputTokenLimitExceeded else OutputTokenLimitExceeded
    else if n < 18 then
      if n == 13 then WorkloadClassRequired else if n == 14 then BranchNotAuthorized else if n == 15 then BranchExpired
      else if n == 16 then BranchBudgetExceeded else WorkloadClassNotAllowed
    else
      if n == 18 then WorkloadClassPerCallLimitExceeded else if n == 19 then WorkloadClassInvocationLimitExceeded
      else if n == 20 then WorkloadClassBudgetExceeded else WorkloadClassShapeMismatch
  }

  lemma SamePositionSameReason(r: Reason, x: Reason)
    requires Position(r) == Position(x)
    ensures r == x
  {
  }

  /** The reasons among the first `n` checks that hold, in order. */
  function Upto(p: Version, i: Input, n: nat): seq<Reason>
    requires n <= CHECKS
  {
    if n == 0 then []
    else Upto(p, i, n - 1) + if Holds(p, i, Check(n - 1)) then [Check(n - 1)] else []
  }

  function Reasons(p: Version, i: Input): seq<Reason> {
    Upto(p, i, CHECKS)
  }

  /** A reason is listed exactly when it is checked and holds. */
  lemma {:induction false} Listed(p: Version, i: Input, n: nat, r: Reason)
    requires n <= CHECKS
    ensures r in Upto(p, i, n) <==> Position(r) < n && Holds(p, i, r)
  {
    if n > 0 {
      Listed(p, i, n - 1, r);
      if Position(r) == n - 1 {
        SamePositionSameReason(r, Check(n - 1));
      }
    }
  }

  /** The reasons that deny a call even in a dry run: everything but the policy's own limits and lists. */
  predicate Hard(r: Reason) {
    r !in {ProviderNotAllowed, ModelNotAllowed, PerCallLimitExceeded, HourlyLimitExceeded, DailyLimitExceeded,
           RateLimitExceeded, InputTokenLimitExceeded, OutputTokenLimitExceeded, PolicyPaused}
  }

  function Decide(mode: Mode, reasons: seq<Reason>): Decision {
    var would := if reasons == [] then Allow else Deny;
    if exists r :: r in reasons && Hard(r) then Decision(Deny, would, true, reasons)
    else if mode.DryRun? then Decision(Allow, would, false, reasons)
    else Decision(would, would, true, reasons)
  }

  function Evaluate(p: Version, i: Input): Result<Decision> {
    if PolicyError(p).Some? then Err(PolicyError(p).value)
    else if InputError(i).Some? then Err(InputError(i).value)
    else if p.mode.Paused? then Ok(Decision(Deny, Deny, true, [PolicyPaused]))
    else Ok(Decide(p.mode, Reasons(p, i)))
  }

  predicate Allows(p: Version, i: Input) {
    Evaluate(p, i).Ok? && Evaluate(p, i).value.outcome.Allow?
  }

  /** A valid call is allowed when no reason holds, and in a dry run when no hard one does; paused, never. */
  lemma AllowsIff(p: Version, i: Input)
    ensures Allows(p, i) <==>
              && PolicyError(p).None? && InputError(i).None? && !p.mode.Paused?
              && forall r :: Holds(p, i, r) ==> p.mode.DryRun? && !Hard(r)
  {
    var reasons := Reasons(p, i);
    forall r ensures r in reasons <==> Holds(p, i, r) {
      Listed(p, i, CHECKS, r);
    }
    assert reasons != [] ==> reasons[0] in reasons;
  }

  // ----- the method -----

  lemma Next(p: Version, i: Input, n: nat, reason: Reason)
    requires n < CHECKS && Position(reason) == n
    ensures Upto(p, i, n + 1) == if Holds(p, i, reason) then Upto(p, i, n) + [reason] else Upto(p, i, n)
  {
    SamePositionSameReason(reason, Check(n));
  }

  lemma {:induction false} Skip(p: Version, i: Input, n: nat, m: nat)
    requires n <= m <= CHECKS
    requires forall r :: n <= Position(r) < m ==> !Holds(p, i, r)
    ensures Upto(p, i, m) == Upto(p, i, n)
    decreases m
  {
    if n < m {
      Skip(p, i, n, m - 1);
    }
  }

  /** The checks of the mandate, the agent and the allowed lists. */
  method AuthorityReasons(p: Version, i: Input) returns (reasons: seq<Reason>)
    requires i.now.Some? && i.mandateExpiresAt != Some(None)
    ensures reasons == Upto(p, i, AUTHORITY_CHECKS)
  {
    reasons := [];
    ghost var n := 0;
    Next(p, i, n, MandateInactive);
    if !i.mandateActive { reasons := reasons + [MandateInactive]; }
    n := n + 1;
    Next(p, i, n, MandateExpired);
    if i.mandateExpiresAt.Some? && i.mandateExpiresAt.value.value <= i.now.value {
      reasons := reasons + [MandateExpired];
    }
    n := n + 1;
    Next(p, i, n, AgentNotAuthorized);
    if !i.agentAuthorized { reasons := reasons + [AgentNotAuthorized]; }
    n := n + 1;
    Next(p, i, n, CapabilityMissing);
    if p.requiredCapability !in i.agentCapabilities { reasons := reasons + [CapabilityMissing]; }
    n := n + 1;
    Next(p, i, n, ProviderNotAllowed);
    if i.provider !in p.allowedProviders { reasons := reasons + [ProviderNotAllowed]; }
    n := n + 1;
    Next(p, i, n, ModelNotAllowed);
    if i.model !in p.allowedModels { reasons := reasons + [ModelNotAllowed]; }
    n := n + 1;
  }

  /** The checks of the policy's spend limits and the mandate's budget. */
  method SpendReasons(p: Version, i: Input, before: seq<Reason>) returns (reasons: seq<Reason>)
    requires before == Upto(p, i, AUTHORITY_CHECKS)
    ensures reasons == Upto(p, i, SPEND_CHECKS)
  {
    reasons := before;
    ghost var n := AUTHORITY_CHECKS;
    Next(p, i, n, PerCallLimitExceeded);
    if i.estimatedCost > p.limits.maxPerCall { reasons := reasons + [PerCallLimitExceeded]; }
    n := n + 1;
    Next(p, i, n, HourlyLimitExceeded);
    if i.spentHour + i.estimatedCost > p.limits.maxHourly { reasons := reasons + [HourlyLimitExceeded]; }
    n := n + 1;
    Next(p, i, n, DailyLimitExceeded);
    if i.spentDay + i.estimatedCost > p.limits.maxDaily { reasons := reasons + [DailyLimitExceeded]; }
    n := n + 1;
    Next(p, i, n, MandateBudgetExceeded);
    if i.mandateSpent + i.estimatedCost > i.mandateMaximum { reasons := reasons + [MandateBudgetExceeded]; }
    n := n + 1;
  }

  /** The checks of the policy's rate and token limits. */
  method CountReasons(p: Version, i: Input, before: seq<Reason>) returns (reasons: seq<Reason>)
    requires before == Upto(p, i, SPEND_CHECKS)
    ensures reasons == Upto(p, i, CALL_CHECKS)
  {
    reasons := before;
    ghost var n := SPEND_CHECKS;
    Next(p, i, n, RateLimitExceeded);
    if i.requestsLastMinute >= p.limits.maxRequestsPerMinute { reasons := reasons + [RateLimitExceeded]; }
    n := n + 1;
    Next(p, i, n, InputTokenLimitExceeded);
    if i.inputTokens > p.limits.maxInputTokens { reasons := reasons + [InputTokenLimitExceeded]; }
    n := n + 1;
    Next(p, i, n, OutputTokenLimitExceeded);
    if i.maxOutputTokens > p.limits.maxOutputTokens { reasons := reasons + [OutputTokenLimitExceeded]; }
    n := n + 1;
  }

  method ClassReasons(p: Version, i: Input, w: Workload, c: Class, before: seq<Reason>) returns (reasons: seq<Reason>)
    requires p.classes != [] && i.workload == Some(w) && w.branchAuthorized && AllowedClass(p, w) == Some(c)
    requires before == Upto(p, i, WORKLOAD_CHECKS)
    ensures reasons == Reasons(p, i)
  {
    reasons := before;
    ghost var n := WORKLOAD_CHECKS;
    Next(p, i, n, WorkloadClassPerCallLimitExceeded);
    if i.estimatedCost > c.maxCostPerCall { reasons := reasons + [WorkloadClassPerCallLimitExceeded]; }
    n := n + 1;
    Next(p, i, n, WorkloadClassInvocationLimitExceeded);
    if w.classInvocations >= c.maxInvocationsPerBranch { reasons := reasons + [WorkloadClassInvocationLimitExceeded]; }
    n := n + 1;
    Next(p, i, n, WorkloadClassBudgetExceeded);
    if w.classSpent + i.estimatedCost > c.aggregateBudget { reasons := reasons + [WorkloadClassBudgetExceeded]; }
    n := n + 1;
    Next(p, i, n, WorkloadClassShapeMismatch);
    if i.inputTokens < c.minimumInputTokens { reasons := reasons + [WorkloadClassShapeMismatch]; }
    n := n + 1;
  }

  method BranchReasons(p: Version, i: Input, w: Workload, before: seq<Reason>) returns (reasons: seq<Reason>)
    requires p.classes != [] && i.workload == Some(w) && w.branchAuthorized && i.now.Some?
    requires before == Upto(p, i, BRANCH_CHECKS)
    ensures reasons == Reasons(p, i)
  {
    reasons := before;
    ghost var n := BRANCH_CHECKS;
    Next(p, i, n, BranchExpired);
    if w.branchExpiresAt.Some? && w.branchExpiresAt.value.Some? && i.now.value >= w.branchExpiresAt.value.value {
      reasons := reasons + [BranchExpired];
    }
    n := n + 1;
    Next(p, i, n, BranchBudgetExceeded);
    if w.branchSpent + i.estimatedCost > w.branchMaximum { reasons := reasons + [BranchBudgetExceeded]; }
    n := n + 1;
    Next(p, i, n, WorkloadClassNotAllowed);
    n := n + 1;
    var found := FindClass(p.classes, w.workloadClass);
    if !w.classAuthorized || found.None? {
      reasons := reasons + [WorkloadClassNotAllowed];
      Skip(p, i, n, CHECKS);
    } else {
      reasons := ClassReasons(p, i, w, found.value, reasons);
    }
  }

  method WorkloadReasons(p: Version, i: Input, before: seq<Reason>) returns (reasons: seq<Reason>)
    requires p.classes != [] && before == Upto(p, i, CALL_CHECKS) && i.now.Some?
    ensures reasons == Reasons(p, i)
  {
    reasons := before;
    ghost var n := CALL_CHECKS;
    Next(p, i, n, WorkloadClassRequired);
    n := n + 1;
    Next(p, i, n, BranchNotAuthorized);
    n := n + 1;
    if i.workload.None? {
      reasons := reasons + [WorkloadClassRequired];
      Skip(p, i, n, CHECKS);
    } else if !i.workload.value.branchAuthorized {
      reasons := reasons + [BranchNotAuthorized];
      Skip(p, i, n, CHECKS);
    } else {
      reasons := BranchReasons(p, i, i.workload.value, reasons);
    }
  }

  method EvaluatePolicy(p: Version, i: Input) returns (r: Result<Decision>)
    ensures r == Evaluate(p, i)
  {
    var policyError := PolicyError(p);
    if policyError.Some? { return Err(policyError.value); }
    var inputError := InputError(i);
    if inputError.Some? { return Err(inputError.value); }
    if p.mode.Paused? { return Ok(Decision(Deny, Deny, true, [PolicyPaused])); }
    var reasons := AuthorityReasons(p, i);
    reasons := SpendReasons(p, i, reasons);
    reasons := CountReasons(p, i, reasons);
    if p.classes != [] {
      reasons := WorkloadReasons(p, i, reasons);
    } else {
      Skip(p, i, CALL_CHECKS, CHECKS);
    }
    r := Ok(Decide(p.mode, reasons));
  }

  // ----- monotonicity and the two modes -----

  /** `low` asks for no more than `high`: same facts, no higher cost, prior spend, counts or output tokens. */
  predicate NoMore(low: Input, high: Input) {
    && low.estimatedCost <= high.estimatedCost && low.maxOutputTokens <= high.maxOutputTokens
    && low.spentHour <= high.spentHour && low.spentDay <= high.spentDay && low.mandateSpent <= high.mandateSpent
    && low.requestsLastMinute <= high.requestsLastMinute
    && low.workload.Some? == high.workload.Some?
    && (low.workload.Some? ==>
          var l, h := low.workload.value, high.workload.value;
          && l.branchSpent <= h.branchSpent && l.classInvocations <= h.classInvocations && l.classSpent <= h.classSpent
          && l == h.(branchSpent := l.branchSpent, classInvocations := l.classInvocations, classSpent := l.classSpent))
    && low == high.(estimatedCost := low.estimatedCost, maxOutputTokens := low.maxOutputTokens,
                    spentHour := low.spentHour, spentDay := low.spentDay, mandateSpent := low.mandateSpent,
                    requestsLastMinute := low.requestsLastMinute, workload := low.workload)
  }

  lemma HoldsForMore(p: Version, low: Input, high: Input, r: Reason)
    requires NoMore(low, high)
    ensures Holds(p, low, r) ==> Holds(p, high, r)
  {
    if low.workload.Some? && p.classes != [] {
      assert AllowedClass(p, low.workload.value) == AllowedClass(p, high.workload.value);
    }
  }

  /** Asking for less never adds a reason, so what is allowed stays allowed. */
  lemma LessIsNoWorse(p: Version, low: Input, high: Input)
    requires NoMore(low, high)
    ensures forall r :: r in Reasons(p, low) ==> r in Reasons(p, high)
    ensures Allows(p, high) && InputError(low).None? ==> Allows(p, low)
  {
    forall r ensures Holds(p, low, r) ==> Holds(p, high, r) {
      HoldsForMore(p, low, high, r);
    }
    forall r | r in Reasons(p, low) ensures r in Reasons(p, high) {
      Listed(p, low, CHECKS, r);
      Listed(p, high, CHECKS, r);
    }
    AllowsIff(p, low);
    AllowsIff(p, high);
  }

  /** Input tokens are not among what may be lowered: a class sets a minimum. */
  lemma FewerTokensAddAReason(p: Version, i: Input, w: Workload, c: Class)
    requires p.classes != [] && i.workload == Some(w) && w.branchAuthorized && AllowedClass(p, w) == Some(c)
    requires 0 < c.minimumInputTokens <= i.inputTokens
    ensures WorkloadClassShapeMismatch !in Reasons(p, i)
    ensures WorkloadClassShapeMismatch in Reasons(p, i.(inputTokens := c.minimumInputTokens - 1))
  {
    var fewer := i.(inputTokens := c.minimumInputTokens - 1);
    Listed(p, i, CHECKS, WorkloadClassShapeMismatch);
    Listed(p, fewer, CHECKS, WorkloadClassShapeMismatch);
  }

  /** The same policy in a dry run gives the same reasons, and allows more exactly by the soft ones. */
  lemma DryRunAllowsMore(p: Version, i: Input)
    requires PolicyError(p).None? && InputError(i).None?
    ensures var enforce, dryRun := Evaluate(p.(mode := Enforce), i).value, Evaluate(p.(mode := DryRun), i).value;
            && enforce.reasons == dryRun.reasons && enforce.wouldOutcome == dryRun.wouldOutcome
            && (enforce.outcome.Allow? ==> dryRun.outcome.Allow?)
            && (dryRun.outcome.Allow? && enforce.outcome.Deny?
                <==> enforce.reasons != [] && forall r :: r in enforce.reasons ==> !Hard(r))
  {
    var e, d := p.(mode := Enforce), p.(mode := DryRun);
    SameReasons(e, d, i, CHECKS);
    assert e.classes == p.classes && PolicyError(e).None? && PolicyError(d).None?;
  }

  lemma {:induction false} SameReasons(p: Version, q: Version, i: Input, n: nat)
    requires p == q.(mode := p.mode) && n <= CHECKS
    ensures Upto(p, i, n) == Upto(q, i, n)
  {
    if n > 0 {
      SameReasons(p, q, i, n - 1);
      assert Holds(p, i, Check(n - 1)) == Holds(q, i, Check(n - 1));
    }
  }

  // ----- runs -----

  /** What has been charged: to the mandate, to branches, and to each class of each branch. */
  datatype Usage = Usage(mandate: int, branches: map<string, int>, classes: map<(string, string), int>,
                         calls: map<(string, string), int>)

  function At<K>(m: map<K, int>, k: K): int {
    if k in m then m[k] else 0
  }

  /** A call as it is evaluated: its spent amounts and counts are the recorded ones. */
  function Informed(u: Usage, i: Input): Input {
    i.(mandateSpent := u.mandate,
       workload := if i.workload.None? then None else
                     var w := i.workload.value;
                     Some(w.(branchSpent := At(u.branches, w.branchId),
                             classSpent := At(u.classes, (w.branchId, w.workloadClass)),
                             classInvocations := At(u.calls, (w.branchId, w.workloadClass)))))
  }

  /** An allowed call is charged its estimate. */
  function Admit(p: Version, u: Usage, i: Input): Usage {
    if !Allows(p, Informed(u, i)) then u
    else if i.workload.None? then u.(mandate := u.mandate + i.estimatedCost)
    else
      var w := i.workload.value;
      var key := (w.branchId, w.workloadClass);
      Usage(u.mandate + i.estimatedCost,
            u.branches[w.branchId := At(u.branches, w.branchId) + i.estimatedCost],
            u.classes[key := At(u.classes, key) + i.estimatedCost],
            u.calls[key := At(u.calls, key) + 1])
  }

  function AdmitAll(p: Version, u: Usage, calls: seq<Input>): Usage {
    if calls == [] then u else Admit(p, AdmitAll(p, u, calls[..|calls| - 1]), calls[|calls| - 1])
  }

  /** The maxima a run is held to: those of the mandate and of its branches do not change during it. */
  predicate SameMaxima(calls: seq<Input>, mandateMaximum: int, branchMaximum: string -> int) {
    forall k :: 0 <= k < |calls| ==>
      && calls[k].mandateMaximum == mandateMaximum
      && (calls[k].workload.Some? ==>
          calls[k].workload.value.branchMaximum == branchMaximum(calls[k].workload.value.branchId))
  }

  /** A counter is where it was before the run, or within its maximum. */
  predicate Kept(before: int, after: int, maximum: int) {
    after == before || after <= maximum
  }

  ghost predicate ClassKept(p: Version, before: Usage, after: Usage, key: (string, string)) {
    match FindClass(p.classes, key.1)
    case None => At(after.classes, key) == At(before.classes, key) && At(after.calls, key) == At(before.calls, key)
    case Some(c) =>
      && Kept(At(before.classes, key), At(after.classes, key), c.aggregateBudget)
      && Kept(At(before.calls, key), At(after.calls, key), c.maxInvocationsPerBranch)
  }

  /** What an allowed call satisfies, in a dry run as under enforcement. */
  lemma AllowedIsWithin(p: Version, i: Input)
    requires Allows(p, i)
    ensures i.estimatedCost >= 0 && i.mandateSpent + i.estimatedCost <= i.mandateMaximum
    ensures i.mandateActive && i.agentAuthorized && p.requiredCapability in i.agentCapabilities && i.now.Some?
    ensures i.mandateExpiresAt.Some? ==>
              i.mandateExpiresAt.value.Some? && i.now.value < i.mandateExpiresAt.value.value
    ensures p.classes != [] ==>
              && i.workload.Some?
              && var w := i.workload.value;
              && w.branchAuthorized && w.classAuthorized
              && (w.branchExpiresAt.Some? && w.branchExpiresAt.value.Some? ==>
                    i.now.value < w.branchExpiresAt.value.value)
              && w.branchSpent + i.estimatedCost <= w.branchMaximum
              && FindClass(p.classes, w.workloadClass).Some?
              && var c := FindClass(p.classes, w.workloadClass).value;
              && i.estimatedCost <= c.maxCostPerCall
              && w.classSpent + i.estimatedCost <= c.aggregateBudget
              && w.classInvocations + 1 <= c.maxInvocationsPerBranch
              && i.inputTokens >= c.minimumInputTokens
  {
    HardReasonsAbsent(p, i);
    assert !Holds(p, i, MandateInactive) && !Holds(p, i, MandateExpired);
    assert !Holds(p, i, AgentNotAuthorized) && !Holds(p, i, CapabilityMissing);
    if p.classes != [] {
      WorkloadIsWithin(p, i);
    }
  }

  lemma HardReasonsAbsent(p: Version, i: Input)
    requires Allows(p, i)
    ensures forall r :: Hard(r) ==> !Holds(p, i, r)
    ensures InputError(i).None?
    ensures i.estimatedCost >= 0 && i.mandateSpent + i.estimatedCost <= i.mandateMaximum
  {
    AllowsIff(p, i);
    assert !Holds(p, i, MandateBudgetExceeded);
  }

  lemma WorkloadIsWithin(p: Version, i: Input)
    requires p.classes != [] && forall r :: Hard(r) ==> !Holds(p, i, r)
    ensures i.workload.Some? && AllowedClass(p, i.workload.value).Some?
    ensures var w, c := i.workload.value, AllowedClass(p, i.workload.value).value;
            && w.branchAuthorized && w.classAuthorized && !Passed(w.branchExpiresAt, i.now)
            && w.branchSpent + i.estimatedCost <= w.branchMaximum
            && i.estimatedCost <= c.maxCostPerCall && w.classSpent + i.estimatedCost <= c.aggregateBudget
            && w.classInvocations + 1 <= c.maxInvocationsPerBranch && i.inputTokens >= c.minimumInputTokens
  {
    assert !Holds(p, i, WorkloadClassRequired);
    assert !Holds(p, i, BranchNotAuthorized);
    var w := i.workload.value;
    forall r | Hard(r) ensures !WorkloadHolds(i, w, AllowedClass(p, w), r) {
      assert !Holds(p, i, r);
    }
    assert !WorkloadHolds(i, w, AllowedClass(p, w), BranchExpired);
    assert !WorkloadHolds(i, w, AllowedClass(p, w), WorkloadClassNotAllowed);
    assert !WorkloadHolds(i, w, AllowedClass(p, w), BranchBudgetExceeded);
    assert !WorkloadHolds(i, w, AllowedClass(p, w), WorkloadClassPerCallLimitExceeded);
    assert !WorkloadHolds(i, w, AllowedClass(p, w), WorkloadClassInvocationLimitExceeded);
    assert !WorkloadHolds(i, w, AllowedClass(p, w), WorkloadClassBudgetExceeded);
    assert !WorkloadHolds(i, w, AllowedClass(p, w), WorkloadClassShapeMismatch);
  }

  /** One admission moves a counter only to a value within its maximum. */
  lemma AdmitKeeps(p: Version, u: Usage, i: Input, branchMaximum: string -> int)
    requires SameMaxima([i], i.mandateMaximum, branchMaximum)
    ensures var v := Admit(p, u, i);
            && Kept(u.mandate, v.mandate, i.mandateMaximum)
            && (p.classes != [] ==> forall b :: Kept(At(u.branches, b), At(v.branches, b), branchMaximum(b)))
            && (p.classes != [] ==> forall key :: ClassKept(p, u, v, key))
  {
    var informed := Informed(u, i);
    if Allows(p, informed) {
      AllowedIsWithin(p, informed);
      assert [i][0] == i;
      assert i.workload.Some? ==>
          informed.workload.Some? && informed.workload.value.branchId == i.workload.value.branchId;
    }
  }

  /**
    Over any run of calls, in a dry run as well as under enforcement: mandate spend stays within the mandate's
    maximum, and, when the policy has workload classes, branch spend within each branch's maximum and class
    spend and invocations within each class's maxima. A counter that starts above its maximum never moves.
   */
  lemma {:induction false} RunsStayWithin(p: Version, u: Usage, calls: seq<Input>, mandateMaximum: int,
                                          branchMaximum: string -> int)
    requires SameMaxima(calls, mandateMaximum, branchMaximum)
    ensures Kept(u.mandate, AdmitAll(p, u, calls).mandate, mandateMaximum)
    ensures p.classes != [] ==> forall b ::
            Kept(At(u.branches, b), At(AdmitAll(p, u, calls).branches, b), branchMaximum(b))
    ensures p.classes != [] ==> forall key :: ClassKept(p, u, AdmitAll(p, u, calls), key)
  {
    if calls != [] {
      var front, last := calls[..|calls| - 1], calls[|calls| - 1];
      RunsStayWithin(p, u, front, mandateMaximum, branchMaximum);
      AdmitKeeps(p, AdmitAll(p, u, front), last, branchMaximum);
      var mid, end := AdmitAll(p, u, front), AdmitAll(p, u, calls);
      if p.classes != [] {
        forall b ensures Kept(At(u.branches, b), At(end.branches, b), branchMaximum(b)) {
          assert Kept(At(u.branches, b), At(mid.branches, b), branchMaximum(b));
          assert Kept(At(mid.branches, b), At(end.branches, b), branchMaximum(b));
        }
        forall key ensures ClassKept(p, u, end, key) {
          assert ClassKept(p, u, mid, key) && ClassKept(p, mid, end, key);
        }
      }
    }
  }

  /** Without workload classes a branch maximum does not bind: an allowed call may pass any branch's maximum. */
  lemma NoClassesNoBranchLimit(p: Version, u: Usage, i: Input, w: Workload)
    requires p.classes == [] && Allows(p, Informed(u, i)) && i.workload == Some(w)
    requires w.branchMaximum < At(u.branches, w.branchId) + i.estimatedCost
    ensures At(Admit(p, u, i).branches, w.branchId) > w.branchMaximum
  {
  }

  /** Under enforcement a policy whose limits are zero lets no call through that costs anything. */
  predicate NeverCharges(p: Version) {
    p.mode.Enforce? && (p.limits.maxPerCall < 1 || p.limits.maxHourly < 1 || p.limits.maxDaily < 1
                        || p.limits.maxRequestsPerMinute < 1)
  }

  /** Branch maxima hold over every run, from any usage. */
  ghost predicate BranchMaximaBind(p: Version) {
    forall u, calls, mandateMaximum, branchMaximum, b {:trigger Held(p, u, calls, mandateMaximum, branchMaximum, b)} ::
      Held(p, u, calls, mandateMaximum, branchMaximum, b)
  }

  ghost predicate Held(p: Version, u: Usage, calls: seq<Input>, mandateMaximum: int, branchMaximum: string -> int,
                       b: string) {
    SameMaxima(calls, mandateMaximum, branchMaximum) ==>
        Kept(At(u.branches, b), At(AdmitAll(p, u, calls).branches, b), branchMaximum(b))
  }

  lemma NeverChargesNothing(p: Version, i: Input)
    requires NeverCharges(p) && Allows(p, i)
    ensures i.estimatedCost == 0
  {
    AllowsIff(p, i);
    assert !Holds(p, i, PerCallLimitExceeded) && !Holds(p, i, HourlyLimitExceeded);
    assert !Holds(p, i, DailyLimitExceeded) && !Holds(p, i, RateLimitExceeded);
    AmountsAreNonNegative(i);
  }

  lemma AmountsAreNonNegative(i: Input)
    requires InputError(i).None?
    ensures i.estimatedCost >= 0 && i.spentHour >= 0 && i.spentDay >= 0 && i.requestsLastMinute >= 0
  {
  }

  lemma {:induction false} NeverChargesKeeps(p: Version, u: Usage, calls: seq<Input>, b: string)
    requires NeverCharges(p)
    ensures At(AdmitAll(p, u, calls).branches, b) == At(u.branches, b)
  {
    if calls != [] {
      var before, i := AdmitAll(p, u, calls[..|calls| - 1]), calls[|calls| - 1];
      NeverChargesKeeps(p, u, calls[..|calls| - 1], b);
      if Allows(p, Informed(before, i)) {
        NeverChargesNothing(p, Informed(before, i));
      }
    }
  }

  /** A call of cost one that any policy without classes and with positive limits allows. */
  function OneCall(p: Version): Input
    requires PolicyError(p).None?
  {
    Input(Some(0), true, None, true, [p.requiredCapability], p.allowedProviders[0], p.allowedModels[0], 1,
          0, 0, 0, 0, 0, 1, 0, Some(Workload("b", "c", true, 0, 0, None, true, 0, 0)))
  }

  lemma OneCallIsValid(p: Version)
    requires PolicyError(p).None?
    ensures InputError(OneCall(p)).None?
  {
    assert !Blank(p.allowedProviders[0]) && !Blank(p.allowedModels[0]);
  }

  lemma OneCallIsAllowed(p: Version)
    requires PolicyError(p).None? && p.classes == [] && !p.mode.Paused? && !NeverCharges(p)
    ensures Allows(p, OneCall(p))
  {
    var i := OneCall(p);
    OneCallIsValid(p);
    LimitsAreNonNegative(p);
    forall r | Holds(p, i, r) ensures p.mode.DryRun? && !Hard(r) {
      assert Position(r) < CALL_CHECKS && CallHolds(p, i, r);
      assert i.provider in p.allowedProviders && i.model in p.allowedModels;
    }
    AllowsIff(p, i);
  }

  lemma LimitsAreNonNegative(p: Version)
    requires PolicyError(p).None?
    ensures p.limits.maxInputTokens >= 0 && p.limits.maxOutputTokens >= 0
  {
    assert LimitsError(p.limits).None?;
  }

  /**
    For a valid policy that is not paused, branch maxima bind in every run exactly when it has workload classes, or
    its own limits let nothing through that costs anything.
   */
  lemma BranchMaximaBindIff(p: Version)
    requires PolicyError(p).None? && !p.mode.Paused?
    ensures BranchMaximaBind(p) <==> p.classes != [] || NeverCharges(p)
  {
    if p.classes != [] {
      forall u, calls, mandateMaximum, branchMaximum, b ensures Held(p, u, calls, mandateMaximum, branchMaximum, b) {
        if SameMaxima(calls, mandateMaximum, branchMaximum) {
          RunsStayWithin(p, u, calls, mandateMaximum, branchMaximum);
        }
      }
    } else if NeverCharges(p) {
      forall u, calls, mandateMaximum, branchMaximum, b ensures Held(p, u, calls, mandateMaximum, branchMaximum, b) {
        NeverChargesKeeps(p, u, calls, b);
      }
    } else {
      UnboundRun(p);
    }
  }

  lemma UnboundRun(p: Version)
    requires PolicyError(p).None? && p.classes == [] && !p.mode.Paused? && !NeverCharges(p)
    ensures !BranchMaximaBind(p)
  {
    var u, i := Usage(0, map[], map[], map[]), OneCall(p);
    OneCallIsAllowed(p);
    assert Informed(u, i) == i;
    assert [i][..0] == [] && AdmitAll(p, u, [i]) == Admit(p, u, i);
    assert At(Admit(p, u, i).branches, "b") == 1;
    var none: string -> int := (b: string) => 0;
    assert SameMaxima([i], 1, none);
    assert !Held(p, u, [i], 1, none, "b");
  }
}
