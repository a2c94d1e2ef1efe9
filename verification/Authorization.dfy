/**
  The authorization decision: committed once, published as two receipts, and recoverable after a crash at any
  point. Hashes are kept as their preimages, signatures as an abstract check.
 */
module Authorization {
  import opened Results

  datatype Kind = Operator | Reconciliation

  datatype Payload = Payload(kind: Kind, runId: string, planFingerprint: string, executableFingerprint: string,
                             actorId: string, issuerCredentialId: string, capability: string, nonce: Option<string>,
                             expiresAt: string, unknownFields: bool)

  datatype Artifact = Artifact(payload: Payload, signature: string)

  datatype Issuer = Issuer(id: string, rawPublicKeyHex: string)

  /**
    The trusted issuers, how times parse (a time that does not parse compares as neither before nor after), and which
    signatures hold.
   */
  datatype Trust = Trust(operator: Issuer, reconciliation: Issuer, parse: string -> Option<int>,
                         signed: (Payload, string, string) -> bool)

  datatype CrashPoint = NoCrash | BeforeCommit | AfterCommit | AfterOperatorReceipt | AfterReconciliationReceipt

  datatype Request = Request(now: string, runId: string, planFingerprint: string, executableFingerprint: string,
                             operator: Option<Artifact>, reconciliation: Option<Artifact>)

  datatype Digest = OfExpectation(runId: string, planFingerprint: string, executableFingerprint: string)
    | OfArtifact(artifact: Artifact) | Zeros

  datatype Receipt = Receipt(kind: Kind, status: string, databaseValidationTime: string, expected: Digest,
                             presented: Option<Digest>, credentialId: Option<string>,
                             issuerCredentialId: Option<string>, reasonCode: string)

  datatype DecisionId =
    | AuthorizationId(now: string, expected: Digest, operatorValid: bool, reconciliationValid: bool)
    | ReadinessFailedId(reasonCode: string)

  datatype Decision = Decision(id: DecisionId, active: bool, operatorReceipt: Receipt, reconciliationReceipt: Receipt)

  datatype Store = Store(committed: Option<Decision>, published: map<Kind, Receipt>, consumedNonces: set<string>)

  const FRESH: Store := Store(None, map[], {})

  // ----- validating one artifact -----

  predicate HexKey(s: string) {
    |s| == 64 && forall i :: 0 <= i < |s| ==> 'a' <= s[i] <= 'f' || '0' <= s[i] <= '9'
  }

  predicate Base64Unit(c: char) {
    'A' <= c <= 'Z' || 'a' <= c <= 'z' || '0' <= c <= '9' || c == '+' || c == '/'
  }

  function Base64Span(s: string): (n: nat)
    ensures n <= |s|
  {
    if s == "" || !Base64Unit(s[0]) then 0 else 1 + Base64Span(s[1..])
  }

  /** One or more base-64 units, then at most two padding signs. */
  predicate Base64Text(s: string) {
    var n := Base64Span(s);
    0 < n && |s| <= n + 2 && forall i :: n <= i < |s| ==> s[i] == '='
  }

  predicate Expired(trust: Trust, expiresAt: string, now: string) {
    trust.parse(expiresAt).Some? && trust.parse(now).Some? && trust.parse(expiresAt).value <= trust.parse(now).value
  }

  predicate Verifies(trust: Trust, artifact: Option<Artifact>, kind: Kind, request: Request) {
    artifact.Some?
    && var payload := artifact.value.payload;
    && var issuer := if kind.Operator? then trust.operator else trust.reconciliation;
    && !payload.unknownFields
    && payload.kind == kind
    && payload.capability == (if kind.Operator? then "evidence:authorize-spend"
                              else "evidence:authorize-reconciliation")
    && payload.runId == request.runId
    && payload.planFingerprint == request.planFingerprint
    && payload.executableFingerprint == request.executableFingerprint
    && !Expired(trust, payload.expiresAt, request.now)
    && (kind.Operator? ==> payload.nonce.Some? && payload.nonce.value != "")
    && (kind.Reconciliation? ==> payload.nonce.None?)
    && payload.actorId != payload.issuerCredentialId
    && payload.issuerCredentialId == issuer.id
    && HexKey(issuer.rawPublicKeyHex)
    && Base64Text(artifact.value.signature)
    && trust.signed(payload, issuer.rawPublicKeyHex, artifact.value.signature)
  }

  /** Two artifacts of one actor, or of one issuer credential, invalidate each other. */
  predicate SharedAuthority(a: Artifact, b: Artifact) {
    a.payload.actorId == b.payload.actorId || a.payload.issuerCredentialId == b.payload.issuerCredentialId
  }

  function Validity(trust: Trust, request: Request): (bool, bool) {
    var o, r := Verifies(trust, request.operator, Operator, request),
        Verifies(trust, request.reconciliation, Reconciliation, request);
    if o && r && SharedAuthority(request.operator.value, request.reconciliation.value) then (false, false) else (o, r)
  }

  function ReceiptFor(kind: Kind, status: string, request: Request, artifact: Option<Artifact>, active: bool): Receipt {
    Receipt(kind, status, request.now,
            OfExpectation(request.runId, request.planFingerprint, request.executableFingerprint),
            if artifact.Some? then Some(OfArtifact(artifact.value)) else None,
            if artifact.Some? then Some(artifact.value.payload.actorId) else None,
            if artifact.Some? then Some(artifact.value.payload.issuerCredentialId) else None,
            if active then "valid_pair" else "absent_or_invalid_pair")
  }

  function DecisionFor(trust: Trust, request: Request): Decision {
    var (o, r) := Validity(trust, request);
    var active := o && r;
    var expected := OfExpectation(request.runId, request.planFingerprint, request.executableFingerprint);
    Decision(AuthorizationId(request.now, expected, o, r), active,
             ReceiptFor(Operator, if !o then "absent_or_invalid" else if r then "consumed"
                        else "valid_not_consumed_peer_invalid",
                        request, request.operator, active),
             ReceiptFor(Reconciliation, if !r then "absent_or_invalid" else if o then "validated"
                        else "valid_not_activated_peer_invalid",
                        request, request.reconciliation, active))
  }

  function ReadinessFailed(reasonCode: string, now: string): Decision {
    Decision(ReadinessFailedId(reasonCode), false,
             Receipt(Operator, "readiness_failed", now, Zeros, None, None, None, reasonCode),
             Receipt(Reconciliation, "readiness_failed", now, Zeros, None, None, None, reasonCode))
  }

  // ----- calls on the store -----

  datatype Call = Decide(request: Request, crashAt: CrashPoint) | FailPredecision(reasonCode: string, now: string)
    | Recover

  function Publish(s: Store, kind: Kind, receipt: Receipt): Result<Store> {
    if kind in s.published && s.published[kind] != receipt then Err("AUTHORIZATION_RECEIPT_CONFLICT")
    else Ok(s.(published := s.published[kind := receipt]))
  }

  function RecoverPublication(s: Store): (Store, Result<Decision>) {
    if s.committed.None? then (s, Err("AUTHORIZATION_DECISION_ABSENT"))
    else
      match Publish(s, Operator, s.committed.value.operatorReceipt)
      case Err(code) => (s, Err(code))
      case Ok(t) =>
        match Publish(t, Reconciliation, s.committed.value.reconciliationReceipt)
        case Err(code) => (t, Err(code))
        case Ok(u) => (u, Ok(s.committed.value))
  }

  const INJECTED: Result<Decision> := Err("INJECTED_AUTHORIZATION_CRASH")

  function Commit(s: Store, trust: Trust, request: Request): Store {
    var decision := DecisionFor(trust, request);
    s.(committed := Some(decision),
       consumedNonces := s.consumedNonces + NoncesOf(decision, request))
  }

  /** The nonce an active decision consumes. */
  function NoncesOf(decision: Decision, request: Request): set<string> {
    if decision.active && request.operator.Some? && request.operator.value.payload.nonce.Some?
       && request.operator.value.payload.nonce.value != ""
    then {request.operator.value.payload.nonce.value} else {}
  }

  /** Publishing the committed receipts, with a crash after the commit or after either receipt. */
  function PublishCommitted(s: Store, crashAt: CrashPoint): (Store, Result<Decision>)
    requires s.committed.Some?
  {
    if crashAt.AfterCommit? then (s, INJECTED)
    else
      match Publish(s, Operator, s.committed.value.operatorReceipt)
      case Err(code) => (s, Err(code))
      case Ok(t) =>
        if crashAt.AfterOperatorReceipt? then (t, INJECTED)
        else
          match Publish(t, Reconciliation, s.committed.value.reconciliationReceipt)
          case Err(code) => (t, Err(code))
          case Ok(u) => (u, if crashAt.AfterReconciliationReceipt? then INJECTED else Ok(s.committed.value))
  }

  function Apply(s: Store, trust: Trust, call: Call): (Store, Result<Decision>) {
    match call
    case Recover => RecoverPublication(s)
    case FailPredecision(reasonCode, now) =>
      RecoverPublication(if s.committed.Some? then s else s.(committed := Some(ReadinessFailed(reasonCode, now))))
    case Decide(request, crashAt) =>
      if s.committed.Some? then RecoverPublication(s)
      else if crashAt.BeforeCommit? then (s, INJECTED)
      else PublishCommitted(Commit(s, trust, request), crashAt)
  }

  function Run(trust: Trust, calls: seq<Call>): (r: (Store, seq<Result<Decision>>))
    ensures |r.1| == |calls|
  {
    if calls == [] then (FRESH, [])
    else
      var (before, results) := Run(trust, calls[..|calls| - 1]);
      var (after, result) := Apply(before, trust, calls[|calls| - 1]);
      (after, results + [result])
  }

  // ----- what every run keeps -----

  function ReceiptOf(d: Decision, kind: Kind): Receipt {
    if kind.Operator? then d.operatorReceipt else d.reconciliationReceipt
  }

  /** Only receipts of the committed decision are ever published. */
  predicate Consistent(s: Store) {
    && (s.committed.None? ==> s == FRESH)
    && (s.committed.Some? ==> forall k :: k in s.published ==> s.published[k] == ReceiptOf(s.committed.value, k))
  }

  /** The call that would commit a decision, if none is committed. */
  predicate Commits(call: Call) {
    call.FailPredecision? || (call.Decide? && !call.crashAt.BeforeCommit?)
  }

  function CrashFree(call: Call): Call {
    if call.Decide? then call.(crashAt := NoCrash) else call
  }

  /** The store after the call alone, on a fresh store, with no crash. */
  function Clean(trust: Trust, call: Call): Store {
    Apply(FRESH, trust, CrashFree(call)).0
  }

  /** The first call that could commit, if any. */
  ghost predicate FirstCommit(calls: seq<Call>, k: nat) {
    k < |calls| && Commits(calls[k]) && forall j :: 0 <= j < k ==> !Commits(calls[j])
  }

  /** Nothing committed by a store can change, and its nonces are those of the call that committed. */
  predicate Follows(s: Store, trust: Trust, call: Call) {
    s.committed == Clean(trust, call).committed && s.consumedNonces == Clean(trust, call).consumedNonces
  }

  function BothReceipts(d: Decision): map<Kind, Receipt> {
    map[Operator := d.operatorReceipt, Reconciliation := d.reconciliationReceipt]
  }

  lemma BothPublished(s: Store, d: Decision)
    requires forall k :: k in s.published ==> s.published[k] == ReceiptOf(d, k)
    ensures s.published[Operator := d.operatorReceipt][Reconciliation := d.reconciliationReceipt] == BothReceipts(d)
    ensures s.published.Keys == {Operator, Reconciliation} ==> s.published == BothReceipts(d)
  {
    forall k | k in s.published ensures k in BothReceipts(d) {
      match k case Operator => case Reconciliation =>
    }
  }

  lemma RecoverySucceeds(s: Store)
    requires s.committed.Some?
    requires forall k :: k in s.published ==> s.published[k] == ReceiptOf(s.committed.value, k)
    ensures RecoverPublication(s) == (s.(published := BothReceipts(s.committed.value)), Ok(s.committed.value))
  {
    BothPublished(s, s.committed.value);
  }

  lemma PublishCommittedFacts(s: Store, crashAt: CrashPoint)
    requires s.committed.Some? && s.published == map[]
    ensures var (t, r) := PublishCommitted(s, crashAt);
            && t.committed == s.committed && t.consumedNonces == s.consumedNonces
            && (forall k :: k in t.published ==> t.published[k] == ReceiptOf(s.committed.value, k))
            && r != Err("AUTHORIZATION_RECEIPT_CONFLICT")
            && (crashAt.NoCrash? ==> t.published == BothReceipts(s.committed.value))
  {
    BothPublished(s, s.committed.value);
  }

  /** Once committed, no call changes the decision or the nonces, and every call answers with that decision. */
  lemma CommittedNeverChanges(s: Store, trust: Trust, call: Call)
    requires Consistent(s) && s.committed.Some?
    ensures Apply(s, trust, call) == (s.(published := BothReceipts(s.committed.value)), Ok(s.committed.value))
  {
    RecoverySucceeds(s);
  }

  /** On a store without a decision, a call either changes nothing or commits what it alone would commit. */
  lemma FirstCallCommits(trust: Trust, call: Call)
    ensures Consistent(Apply(FRESH, trust, call).0)
    ensures !Commits(call) ==> Apply(FRESH, trust, call).0 == FRESH
    ensures Commits(call) ==>
              Follows(Apply(FRESH, trust, call).0, trust, call) && Apply(FRESH, trust, call).0.committed.Some?
    ensures Commits(call) ==> Clean(trust, call).published == BothReceipts(Clean(trust, call).committed.value)
    ensures Apply(FRESH, trust, call).1 != Err("AUTHORIZATION_RECEIPT_CONFLICT")
  {
    match call
    case Recover =>
    case FailPredecision(reasonCode, now) =>
      RecoverySucceeds(FRESH.(committed := Some(ReadinessFailed(reasonCode, now))));
    case Decide(request, crashAt) =>
      PublishCommittedFacts(Commit(FRESH, trust, request), crashAt);
      PublishCommittedFacts(Commit(FRESH, trust, request), NoCrash);
  }

  lemma {:induction false} RunFollowsFirst(trust: Trust, calls: seq<Call>)
    ensures Consistent(Run(trust, calls).0)
    ensures Run(trust, calls).0.committed.Some? <==> exists k: nat :: FirstCommit(calls, k)
    ensures forall k: nat :: FirstCommit(calls, k) ==> Follows(Run(trust, calls).0, trust, calls[k])
    ensures Err("AUTHORIZATION_RECEIPT_CONFLICT") !in Run(trust, calls).1
  {
    if calls != [] {
      var front, call := calls[..|calls| - 1], calls[|calls| - 1];
      var before := Run(trust, front).0;
      RunFollowsFirst(trust, front);
      assert forall k :: 0 <= k < |front| ==> front[k] == calls[k];
      if before.committed.Some? {
        CommittedNeverChanges(before, trust, call);
        var k: nat :| FirstCommit(front, k);
        assert FirstCommit(calls, k);
        assert forall j: nat :: FirstCommit(calls, j) ==> j == k;
      } else {
        FirstCallCommits(trust, call);
        NoneCommits(front, |front|);
        assert Commits(call) ==> FirstCommit(calls, |front|);
        assert forall k: nat :: FirstCommit(calls, k) ==> k == |front|;
      }
    }
  }

  lemma {:induction false} NoneCommits(calls: seq<Call>, n: nat)
    requires n <= |calls| && !exists k: nat :: FirstCommit(calls, k)
    ensures forall j :: 0 <= j < n ==> !Commits(calls[j])
  {
    if n > 0 {
      NoneCommits(calls, n - 1);
      assert !FirstCommit(calls, n - 1);
    }
  }

  /**
    Crash equivalence: whatever calls were made and wherever they crashed, if anything was committed then
    recovering the publication leaves exactly the store that the first committing call alone would have left
    without a crash; a store that has both receipts is already there; and the conflict error never occurs.
   */
  lemma CrashesDoNotShow(trust: Trust, calls: seq<Call>, k: nat)
    requires FirstCommit(calls, k)
    ensures RecoverPublication(Run(trust, calls).0).0 == Clean(trust, calls[k])
    ensures Run(trust, calls).0.published.Keys == {Operator, Reconciliation} ==>
            Run(trust, calls).0 == Clean(trust, calls[k])
    ensures Err("AUTHORIZATION_RECEIPT_CONFLICT") !in Run(trust, calls).1
  {
    RunFollowsFirst(trust, calls);
    var s := Run(trust, calls).0;
    RecoverySucceeds(s);
    FirstCallCommits(trust, calls[k]);
    BothPublished(s, s.committed.value);
  }

  /** The operator's nonce is consumed exactly when the committed decision is active, and it is that call's nonce. */
  lemma NonceConsumedIffActive(trust: Trust, calls: seq<Call>, k: nat)
    requires FirstCommit(calls, k)
    ensures var s := Run(trust, calls).0;
            && s.committed.Some?
            && (s.committed.value.active ==>
                  && calls[k].Decide? && calls[k].request.operator.Some?
                  && calls[k].request.operator.value.payload.nonce.Some?
                  && s.consumedNonces == {calls[k].request.operator.value.payload.nonce.value})
            && (!s.committed.value.active ==> s.consumedNonces == {})
  {
    RunFollowsFirst(trust, calls);
    var call := calls[k];
    FirstCallCommits(trust, call);
    match call
    case Decide(request, _) =>
      PublishCommittedFacts(Commit(FRESH, trust, request), NoCrash);
      ActiveNeedsTwoAuthorities(trust, request);
    case FailPredecision(reasonCode, now) =>
      RecoverySucceeds(FRESH.(committed := Some(ReadinessFailed(reasonCode, now))));
  }

  /** An active decision needs two valid artifacts of different actors and different issuer credentials. */
  lemma ActiveNeedsTwoAuthorities(trust: Trust, request: Request)
    ensures DecisionFor(trust, request).active <==>
              && Verifies(trust, request.operator, Operator, request)
              && Verifies(trust, request.reconciliation, Reconciliation, request)
              && !SharedAuthority(request.operator.value, request.reconciliation.value)
  {
  }

  // ----- the store object -----

  class AuthorizationDecisionStore {
    const trust: Trust
    var committedDecision: Option<Decision>
    var published: map<Kind, Receipt>
    var consumedNonces: set<string>

    function View(): Store
      reads this
    {
      Store(committedDecision, published, consumedNonces)
    }

    constructor (trust: Trust)
      ensures View() == FRESH && this.trust == trust
    {
      this.trust := trust;
      committedDecision, published, consumedNonces := None, map[], {};
    }

    method PublishReceipt(kind: Kind, receipt: Receipt) returns (r: Result<()>)
      modifies this`published
      ensures match Publish(old(View()), kind, receipt)
              case Err(code) => r == Err(code) && View() == old(View())
              case Ok(after) => r == Ok(()) && View() == after
    {
      if kind in published && published[kind] != receipt {
        return Err("AUTHORIZATION_RECEIPT_CONFLICT");
      }
      published := published[kind := receipt];
      r := Ok(());
    }

    method RecoverDecision() returns (r: Result<Decision>)
      modifies this`published
      ensures (View(), r) == RecoverPublication(old(View()))
    {
      if committedDecision.None? {
        return Err("AUTHORIZATION_DECISION_ABSENT");
      }
      var first := PublishReceipt(Operator, committedDecision.value.operatorReceipt);
      if first.Err? {
        return Err(first.code);
      }
      var second := PublishReceipt(Reconciliation, committedDecision.value.reconciliationReceipt);
      if second.Err? {
        return Err(second.code);
      }
      r := Ok(committedDecision.value);
    }

    method FailBeforeDecision(reasonCode: string, now: string) returns (r: Result<Decision>)
      modifies this
      ensures (View(), r) == Apply(old(View()), trust, FailPredecision(reasonCode, now))
    {
      if committedDecision.None? {
        committedDecision := Some(ReadinessFailed(reasonCode, now));
      }
      r := RecoverDecision();
    }

    method DecideOn(request: Request, crashAt: CrashPoint) returns (r: Result<Decision>)
      modifies this
      ensures (View(), r) == Apply(old(View()), trust, Decide(request, crashAt))
    {
      if committedDecision.Some? {
        r := RecoverDecision();
        return;
      }
      var decision := DecisionFor(trust, request);
      if crashAt.BeforeCommit? {
        return INJECTED;
      }
      committedDecision := Some(decision);
      if decision.active && request.operator.Some? && request.operator.value.payload.nonce.Some?
         && request.operator.value.payload.nonce.value != "" {
        consumedNonces := consumedNonces + {request.operator.value.payload.nonce.value};
      }
      assert View() == Commit(old(View()), trust, request);
      if crashAt.AfterCommit? {
        return INJECTED;
      }
      var first := PublishReceipt(Operator, decision.operatorReceipt);
      if first.Err? {
        return Err(first.code);
      }
      if crashAt.AfterOperatorReceipt? {
        return INJECTED;
      }
      var second := PublishReceipt(Reconciliation, decision.reconciliationReceipt);
      if second.Err? {
        return Err(second.code);
      }
      if crashAt.AfterReconciliationReceipt? {
        return INJECTED;
      }
      r := Ok(decision);
    }
  }
}
