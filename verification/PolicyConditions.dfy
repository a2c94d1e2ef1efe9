/**
  Policy admission, condition by condition: exactly which calls are allowed in each mode, and exactly when each
  reason is given, on the fields of the policy and of the call.
 */
module PolicyConditions {
  import opened Results
  import opened Texts
  import opened Policy

  // ----- what is asked of a call -----

  /** A parsed time that is still to come; no time at all always is. */
  predicate StillToCome(at: Option<Date>, now: Date) {
    at.Some? && at.value.Some? && now.Some? ==> now.value < at.value.value
  }

  /** What is asked in every mode. */
  ghost predicate Entitled(p: Version, i: Input) {
    && i.mandateActive && StillToCome(i.mandateExpiresAt, i.now)
    && i.agentAuthorized && p.requiredCapability in i.agentCapabilities
    && i.mandateSpent + i.estimatedCost <= i.mandateMaximum
    && (p.classes != [] ==> i.workload.Some? && WorkloadEntitled(p, i, i.workload.value))
  }

  /** What is asked of the workload when the policy has classes. */
  ghost predicate WorkloadEntitled(p: Version, i: Input, w: Workload) {
    && w.branchAuthorized && StillToCome(w.branchExpiresAt, i.now) && w.branchSpent + i.estimatedCost <= w.branchMaximum
    && w.classAuthorized
    && exists c :: c in p.classes && c.id == w.workloadClass && FitsClass(i, w, c)
  }

  predicate FitsClass(i: Input, w: Workload, c: Class) {
    && i.estimatedCost <= c.maxCostPerCall && w.classInvocations < c.maxInvocationsPerBranch
    && w.classSpent + i.estimatedCost <= c.aggregateBudget && c.minimumInputTokens <= i.inputTokens
  }

  /** What is asked under enforcement only: the allowed lists and the policy's own limits. */
  predicate WithinLimits(p: Version, i: Input) {
    && i.provider in p.allowedProviders && i.model in p.allowedModels
    && i.estimatedCost <= p.limits.maxPerCall
    && i.spentHour + i.estimatedCost <= p.limits.maxHourly && i.spentDay + i.estimatedCost <= p.limits.maxDaily
    && i.requestsLastMinute < p.limits.maxRequestsPerMinute
    && i.inputTokens <= p.limits.maxInputTokens && i.maxOutputTokens <= p.limits.maxOutputTokens
  }

  // ----- what makes policies and calls valid -----

  predicate Count(n: int) {
    0 <= n <= 9_007_199_254_740_991
  }

  predicate Positive(n: int) {
    1 <= n <= 9_007_199_254_740_991
  }

  predicate Listing(s: seq<string>) {
    s != [] && (forall x :: x in s ==> !Blank(x)) && forall i, j :: 0 <= i < j < |s| ==> s[i] != s[j]
  }

  ghost predicate ValidClass(c: Class) {
    && ClassIdValid(c.id)
    && 0 < c.maxCostPerCall <= c.aggregateBudget
    && Positive(c.maxInvocationsPerBranch) && Count(c.minimumInputTokens)
    && (c.shadow.Some? ==>
          var s := c.shadow.value;
          && 0 < s.priorWindowSpend && s.siblingMinimumForScoring <= s.siblingMinimumForIntervention
          && Positive(s.windowSeconds) && Positive(s.targetMinimumObservations) && Positive(s.siblingMinimumForScoring)
          && Positive(s.siblingMinimumForIntervention) && Positive(s.confidenceConstant)
          && Positive(s.divergenceThresholdBps))
  }

  ghost predicate ValidPolicy(p: Version) {
    && !Blank(p.id) && !Blank(p.organizationId) && p.version >= 1 && p.createdAt.Some?
    && p.requiredCapability in CAPABILITIES && Listing(p.allowedProviders) && Listing(p.allowedModels)
    && (forall c :: c in p.classes ==> ValidClass(c))
    && (forall i, j :: 0 <= i < j < |p.classes| ==> p.classes[i].id != p.classes[j].id)
    && p.limits.maxPerCall >= 0 && p.limits.maxHourly >= 0 && p.limits.maxDaily >= 0
    && Count(p.limits.maxRequestsPerMinute) && Count(p.limits.maxInputTokens) && Count(p.limits.maxOutputTokens)
  }

  ghost predicate ValidInput(i: Input) {
    && i.now.Some? && (i.mandateExpiresAt.Some? ==> i.mandateExpiresAt.value.Some?)
    && !Blank(i.provider) && !Blank(i.model)
    && (forall c :: c in i.agentCapabilities ==> c in CAPABILITIES)
    && (forall j, k :: 0 <= j < k < |i.agentCapabilities| ==> i.agentCapabilities[j] != i.agentCapabilities[k])
    && i.estimatedCost >= 0 && i.spentHour >= 0 && i.spentDay >= 0 && i.mandateSpent >= 0 && i.mandateMaximum >= 0
    && Count(i.inputTokens) && Count(i.maxOutputTokens) && Count(i.requestsLastMinute)
  }

  lemma ListingIff(values: seq<string>, prefix: string)
    ensures UniqueListError(values, prefix).None? <==> Listing(values)
  {
    if exists i :: 0 <= i < |values| && Blank(values[i]) {
      var i :| 0 <= i < |values| && Blank(values[i]);
      assert values[i] in values;
    }
  }

  lemma ClassIff(c: Class)
    ensures ValidClass(c) <==> ClassIdValid(c.id) && ClassError(c).None?
  {
    if c.shadow.Some? {
      var s := c.shadow.value;
      var counts := [s.windowSeconds, s.targetMinimumObservations, s.siblingMinimumForScoring,
                     s.siblingMinimumForIntervention, s.confidenceConstant, s.divergenceThresholdBps];
      assert counts[0] in counts && counts[1] in counts && counts[2] in counts;
      assert counts[3] in counts && counts[4] in counts && counts[5] in counts;
    }
  }

  lemma {:induction false} FirstClassErrorIff(classes: seq<Class>)
    ensures FirstClassError(classes).None? <==> forall c :: c in classes ==> ClassError(c).None?
  {
    if classes != [] {
      FirstClassErrorIff(classes[1..]);
    }
  }

  lemma ClassesIff(classes: seq<Class>)
    ensures ClassesError(classes).None? <==>
              && (forall c :: c in classes ==> ValidClass(c))
              && forall i, j :: 0 <= i < j < |classes| ==> classes[i].id != classes[j].id
  {
    FirstClassErrorIff(classes);
    forall c ensures ValidClass(c) <==> ClassIdValid(c.id) && ClassError(c).None? {
      ClassIff(c);
    }
    if i :| 0 <= i < |classes| && !ClassIdValid(classes[i].id) {
      assert classes[i] in classes;
    }
  }

  /** A policy passes validation exactly when its fields are in order. */
  lemma PolicyValidIff(p: Version)
    ensures PolicyError(p).None? <==> ValidPolicy(p)
  {
    ListingIff(p.allowedProviders, "POLICY_PROVIDER");
    ListingIff(p.allowedModels, "POLICY_MODEL");
    ClassesIff(p.classes);
  }

  /** So does a call. */
  lemma InputValidIff(i: Input)
    ensures InputError(i).None? <==> ValidInput(i)
  {
    if k :| 0 <= k < |i.agentCapabilities| && i.agentCapabilities[k] !in CAPABILITIES {
      assert i.agentCapabilities[k] in i.agentCapabilities;
    }
  }

  // ----- which reasons are given -----

  lemma {:induction false} ClassFound(classes: seq<Class>, c: Class)
    requires c in classes && forall i, j :: 0 <= i < j < |classes| ==> classes[i].id != classes[j].id
    ensures FindClass(classes, c.id) == Some(c)
  {
    if classes[0] != c {
      assert c in classes[1..];
      var k :| 0 <= k < |classes| - 1 && classes[1..][k] == c;
      assert classes[k + 1] == c;
      ClassFound(classes[1..], c);
    }
  }

  lemma {:induction false} FoundIsListed(classes: seq<Class>, id: string)
    ensures FindClass(classes, id).Some? ==> FindClass(classes, id).value in classes
    ensures FindClass(classes, id).None? ==> forall c :: c in classes ==> c.id != id
  {
    if classes != [] {
      FoundIsListed(classes[1..], id);
    }
  }

  /** The workload and its branch are judged. */
  predicate Judged(p: Version, i: Input) {
    p.classes != [] && i.workload.Some? && i.workload.value.branchAuthorized
  }

  /** The class is judged: the call names an authorized one of the policy. */
  predicate NamesClass(p: Version, i: Input, c: Class) {
    Judged(p, i) && i.workload.value.classAuthorized && c in p.classes && c.id == i.workload.value.workloadClass
  }

  /** When each reason speaks against a call. */
  ghost predicate Applies(p: Version, i: Input, r: Reason) {
    match r
    case MandateInactive => !i.mandateActive
    case MandateExpired => !StillToCome(i.mandateExpiresAt, i.now)
    case AgentNotAuthorized => !i.agentAuthorized
    case CapabilityMissing => p.requiredCapability !in i.agentCapabilities
    case ProviderNotAllowed => i.provider !in p.allowedProviders
    case ModelNotAllowed => i.model !in p.allowedModels
    case PerCallLimitExceeded => i.estimatedCost > p.limits.maxPerCall
    case HourlyLimitExceeded => i.spentHour + i.estimatedCost > p.limits.maxHourly
    case DailyLimitExceeded => i.spentDay + i.estimatedCost > p.limits.maxDaily
    case MandateBudgetExceeded => i.mandateSpent + i.estimatedCost > i.mandateMaximum
    case RateLimitExceeded => i.requestsLastMinute >= p.limits.maxRequestsPerMinute
    case InputTokenLimitExceeded => i.inputTokens > p.limits.maxInputTokens
    case OutputTokenLimitExceeded => i.maxOutputTokens > p.limits.maxOutputTokens
    case WorkloadClassRequired => p.classes != [] && i.workload.None?
    case BranchNotAuthorized => p.classes != [] && i.workload.Some? && !i.workload.value.branchAuthorized
    case BranchExpired => Judged(p, i) && !StillToCome(i.workload.value.branchExpiresAt, i.now)
    case BranchBudgetExceeded =>
      Judged(p, i) && i.workload.value.branchSpent + i.estimatedCost > i.workload.value.branchMaximum
    case WorkloadClassNotAllowed => Judged(p, i) && forall c :: !NamesClass(p, i, c)
    case WorkloadClassPerCallLimitExceeded => exists c :: NamesClass(p, i, c) && i.estimatedCost > c.maxCostPerCall
    case WorkloadClassInvocationLimitExceeded =>
      exists c :: NamesClass(p, i, c) && i.workload.value.classInvocations >= c.maxInvocationsPerBranch
    case WorkloadClassBudgetExceeded =>
      exists c :: NamesClass(p, i, c) && i.workload.value.classSpent + i.estimatedCost > c.aggregateBudget
    case WorkloadClassShapeMismatch => exists c :: NamesClass(p, i, c) && i.inputTokens < c.minimumInputTokens
    case PolicyPaused => false
  }

  lemma CallHoldsIff(p: Version, i: Input, r: Reason)
    requires Position(r) < CALL_CHECKS
    ensures CallHolds(p, i, r) <==> Applies(p, i, r)
  {
  }

  lemma WorkloadHoldsIff(p: Version, i: Input, r: Reason)
    requires ValidPolicy(p) && Judged(p, i) && Position(r) >= CALL_CHECKS
    ensures WorkloadHolds(i, i.workload.value, AllowedClass(p, i.workload.value), r) <==> Applies(p, i, r)
  {
    var w := i.workload.value;
    FoundIsListed(p.classes, w.workloadClass);
    forall c | NamesClass(p, i, c) ensures AllowedClass(p, w) == Some(c) {
      ClassFound(p.classes, c);
    }
    assert AllowedClass(p, w).Some? ==> NamesClass(p, i, AllowedClass(p, w).value);
  }

  lemma HoldsIff(p: Version, i: Input, r: Reason)
    requires ValidPolicy(p)
    ensures Holds(p, i, r) <==> Applies(p, i, r)
  {
    if Position(r) < CALL_CHECKS {
      CallHoldsIff(p, i, r);
    } else if Judged(p, i) {
      WorkloadHoldsIff(p, i, r);
    }
  }

  /** A reason is given exactly when it applies. */
  lemma GivenIff(p: Version, i: Input, r: Reason)
    requires ValidPolicy(p)
    ensures r in Reasons(p, i) <==> Applies(p, i, r)
  {
    Listed(p, i, CHECKS, r);
    HoldsIff(p, i, r);
  }

  /** The order in which reasons are given. */
  const ORDER: seq<Reason> := [
    MandateInactive, MandateExpired, AgentNotAuthorized, CapabilityMissing, ProviderNotAllowed, ModelNotAllowed,
    PerCallLimitExceeded, HourlyLimitExceeded, DailyLimitExceeded, MandateBudgetExceeded, RateLimitExceeded,
    InputTokenLimitExceeded, OutputTokenLimitExceeded, WorkloadClassRequired, BranchNotAuthorized, BranchExpired,
    BranchBudgetExceeded, WorkloadClassNotAllowed, WorkloadClassPerCallLimitExceeded,
    WorkloadClassInvocationLimitExceeded, WorkloadClassBudgetExceeded, WorkloadClassShapeMismatch
  ]

  /** Those of a list that apply. */
  ghost function Applying(p: Version, i: Input, reasons: seq<Reason>): seq<Reason> {
    if reasons == [] then []
    else
      var last := reasons[|reasons| - 1];
      Applying(p, i, reasons[..|reasons| - 1]) + if Applies(p, i, last) then [last] else []
  }

  lemma ChecksInOrder(n: nat)
    requires n < 22
    ensures ORDER[n] == Check(n)
  {
    assert ORDER[0] == Check(0) && ORDER[1] == Check(1) && ORDER[2] == Check(2) && ORDER[3] == Check(3);
    assert ORDER[4] == Check(4) && ORDER[5] == Check(5) && ORDER[6] == Check(6) && ORDER[7] == Check(7);
    assert ORDER[8] == Check(8) && ORDER[9] == Check(9) && ORDER[10] == Check(10) && ORDER[11] == Check(11);
    assert ORDER[12] == Check(12) && ORDER[13] == Check(13) && ORDER[14] == Check(14) && ORDER[15] == Check(15);
    assert ORDER[16] == Check(16) && ORDER[17] == Check(17) && ORDER[18] == Check(18) && ORDER[19] == Check(19);
    assert ORDER[20] == Check(20) && ORDER[21] == Check(21);
  }

  lemma {:induction false} UptoIsApplying(p: Version, i: Input, n: nat)
    requires ValidPolicy(p) && n <= 22
    ensures Upto(p, i, n) == Applying(p, i, ORDER[..n])
  {
    if n > 0 {
      UptoIsApplying(p, i, n - 1);
      HoldsIff(p, i, ORDER[n - 1]);
      ChecksInOrder(n - 1);
      assert ORDER[..n][..n - 1] == ORDER[..n - 1];
    }
  }

  /** The reasons given are those that apply, in that order. */
  lemma ReasonsAre(p: Version, i: Input)
    requires ValidPolicy(p)
    ensures Reasons(p, i) == Applying(p, i, ORDER)
  {
    UptoIsApplying(p, i, 22);
    assert ORDER[..22] == ORDER;
  }

  // ----- which calls are allowed -----

  lemma EntitledMeansSoft(p: Version, i: Input, r: Reason)
    requires ValidPolicy(p) && Entitled(p, i) && Applies(p, i, r)
    ensures !Hard(r)
  {
    if p.classes != [] {
      var w := i.workload.value;
      var c :| c in p.classes && c.id == w.workloadClass && FitsClass(i, w, c);
      assert NamesClass(p, i, c);
      forall d | NamesClass(p, i, d) ensures d == c {
      }
    }
  }

  /** No hard reason applies. */
  ghost predicate NoneHard(p: Version, i: Input) {
    forall r :: Applies(p, i, r) ==> !Hard(r)
  }

  lemma HardOnes(p: Version, i: Input)
    requires NoneHard(p, i)
    ensures !Applies(p, i, MandateInactive) && !Applies(p, i, MandateExpired) && !Applies(p, i, AgentNotAuthorized)
    ensures !Applies(p, i, CapabilityMissing) && !Applies(p, i, MandateBudgetExceeded)
    ensures !Applies(p, i, WorkloadClassRequired) && !Applies(p, i, BranchNotAuthorized)
  {
    assert Hard(MandateInactive) && Hard(MandateExpired) && Hard(AgentNotAuthorized) && Hard(CapabilityMissing);
    assert Hard(MandateBudgetExceeded) && Hard(WorkloadClassRequired) && Hard(BranchNotAuthorized);
  }

  lemma HardOnesOfTheWorkload(p: Version, i: Input)
    requires NoneHard(p, i)
    ensures !Applies(p, i, BranchExpired) && !Applies(p, i, BranchBudgetExceeded)
    ensures !Applies(p, i, WorkloadClassNotAllowed)
    ensures !Applies(p, i, WorkloadClassPerCallLimitExceeded) && !Applies(p, i, WorkloadClassBudgetExceeded)
    ensures !Applies(p, i, WorkloadClassInvocationLimitExceeded) && !Applies(p, i, WorkloadClassShapeMismatch)
  {
    assert Hard(BranchExpired) && Hard(BranchBudgetExceeded) && Hard(WorkloadClassNotAllowed);
    assert Hard(WorkloadClassPerCallLimitExceeded) && Hard(WorkloadClassBudgetExceeded);
    assert Hard(WorkloadClassInvocationLimitExceeded) && Hard(WorkloadClassShapeMismatch);
  }

  lemma SoftMeansEntitled(p: Version, i: Input)
    requires NoneHard(p, i)
    ensures Entitled(p, i)
  {
    HardOnes(p, i);
    if p.classes != [] {
      HardOnesOfTheWorkload(p, i);
      SoftWorkload(p, i);
    }
  }

  lemma SoftWorkload(p: Version, i: Input)
    requires Judged(p, i) && !Applies(p, i, BranchExpired) && !Applies(p, i, BranchBudgetExceeded)
    requires !Applies(p, i, WorkloadClassNotAllowed)
    requires !Applies(p, i, WorkloadClassPerCallLimitExceeded) && !Applies(p, i, WorkloadClassBudgetExceeded)
    requires !Applies(p, i, WorkloadClassInvocationLimitExceeded) && !Applies(p, i, WorkloadClassShapeMismatch)
    ensures WorkloadEntitled(p, i, i.workload.value)
  {
    var c :| NamesClass(p, i, c);
    assert FitsClass(i, i.workload.value, c);
  }

  lemma WithinMeansHard(p: Version, i: Input, r: Reason)
    requires WithinLimits(p, i) && Applies(p, i, r)
    ensures Hard(r)
  {
  }

  lemma HardMeansWithin(p: Version, i: Input)
    requires forall r :: Applies(p, i, r) ==> Hard(r)
    ensures WithinLimits(p, i)
  {
    assert !Applies(p, i, ProviderNotAllowed) && !Applies(p, i, ModelNotAllowed);
    assert !Applies(p, i, PerCallLimitExceeded) && !Applies(p, i, HourlyLimitExceeded);
    assert !Applies(p, i, DailyLimitExceeded) && !Applies(p, i, RateLimitExceeded);
    assert !Applies(p, i, InputTokenLimitExceeded) && !Applies(p, i, OutputTokenLimitExceeded);
  }

  /** No reason is hard exactly for an entitled call; none is soft exactly for one within the limits. */
  lemma ReasonKinds(p: Version, i: Input)
    requires ValidPolicy(p)
    ensures Entitled(p, i) <==> forall r :: r in Reasons(p, i) ==> !Hard(r)
    ensures WithinLimits(p, i) <==> forall r :: r in Reasons(p, i) ==> Hard(r)
  {
    forall r ensures r in Reasons(p, i) <==> Applies(p, i, r) {
      GivenIff(p, i, r);
    }
    if Entitled(p, i) {
      forall r | Applies(p, i, r) ensures !Hard(r) {
        EntitledMeansSoft(p, i, r);
      }
    } else if NoneHard(p, i) {
      SoftMeansEntitled(p, i);
    }
    if WithinLimits(p, i) {
      forall r | Applies(p, i, r) ensures Hard(r) {
        WithinMeansHard(p, i, r);
      }
    } else if forall r :: Applies(p, i, r) ==> Hard(r) {
      HardMeansWithin(p, i);
    }
  }

  /**
    The whole decision on a valid call: allowed under enforcement exactly when entitled and within the limits, in a
    dry run exactly when entitled; what enforcement would say is recorded, and the reasons are those that apply.
   */
  lemma DecisionIs(p: Version, i: Input)
    requires ValidPolicy(p) && ValidInput(i) && !p.mode.Paused?
    ensures Evaluate(p, i).Ok?
    ensures var d := Evaluate(p, i).value;
            && d.reasons == Applying(p, i, ORDER)
            && (d.wouldOutcome.Allow? <==> Entitled(p, i) && WithinLimits(p, i))
            && (d.outcome.Allow? <==> Entitled(p, i) && (p.mode.DryRun? || WithinLimits(p, i)))
            && (d.enforced <==> p.mode.Enforce? || !Entitled(p, i))
  {
    PolicyValidIff(p);
    InputValidIff(i);
    ReasonsAre(p, i);
    ReasonKinds(p, i);
    assert Reasons(p, i) != [] ==> Reasons(p, i)[0] in Reasons(p, i);
  }

  /** Which calls are allowed, in every mode: a paused policy allows nothing, an invalid policy or call throws. */
  lemma AllowsExactly(p: Version, i: Input)
    ensures Allows(p, i) <==>
              && ValidPolicy(p) && ValidInput(i) && !p.mode.Paused?
              && Entitled(p, i) && (p.mode.DryRun? || WithinLimits(p, i))
    ensures Evaluate(p, i).Err? <==> !ValidPolicy(p) || !ValidInput(i)
  {
    PolicyValidIff(p);
    InputValidIff(i);
    if ValidPolicy(p) && ValidInput(i) && !p.mode.Paused? {
      DecisionIs(p, i);
    }
  }

  lemma LaterApplies(p: Version, i: Input, j: Input, r: Reason)
    requires i.now.Some? && j.now.Some? && i.now.value <= j.now.value && j == i.(now := j.now) && Applies(p, i, r)
    ensures Applies(p, j, r)
  {
    if c :| NamesClass(p, i, c) {
      assert NamesClass(p, j, c);
    }
    assert forall c :: NamesClass(p, i, c) == NamesClass(p, j, c);
  }

  /** A later time never removes a reason, so what is allowed then was allowed before. */
  lemma LaterIsNoBetter(p: Version, i: Input, later: int)
    requires ValidPolicy(p) && ValidInput(i) && i.now.value <= later
    ensures var j := i.(now := Some(later));
            && (forall r :: r in Reasons(p, i) ==> r in Reasons(p, j))
            && (Allows(p, j) ==> Allows(p, i))
  {
    var j := i.(now := Some(later));
    forall r | r in Reasons(p, i) ensures r in Reasons(p, j) {
      GivenIff(p, i, r);
      GivenIff(p, j, r);
      LaterApplies(p, i, j, r);
    }
    ReasonKinds(p, i);
    ReasonKinds(p, j);
    AllowsExactly(p, i);
    AllowsExactly(p, j);
  }
}
