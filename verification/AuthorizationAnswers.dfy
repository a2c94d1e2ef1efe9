/** What the authorization decision says: which artifacts are accepted, field by field, and both receipts in full. */
module AuthorizationAnswers {
  import opened Results
  import opened Authorization

  const OPERATOR_CAPABILITY := "evidence:authorize-spend"
  const RECONCILIATION_CAPABILITY := "evidence:authorize-reconciliation"

  // ----- texts -----

  predicate Alphanumeric(c: char) {
    'a' <= c <= 'z' || 'A' <= c <= 'Z' || '0' <= c <= '9'
  }

  /** A non-empty run of base-64 units, then no, one or two equals signs. */
  predicate Signed(text: string, body: string, padding: string) {
    && text == body + padding && body != "" && (forall c :: c in body ==> Alphanumeric(c) || c == '+' || c == '/')
    && (padding == "" || padding == "=" || padding == "==")
  }

  lemma {:induction false} SpanOfBody(body: string, padding: string)
    requires (forall c :: c in body ==> Base64Unit(c)) && (padding == "" || padding[0] == '=')
    ensures Base64Span(body + padding) == |body|
  {
    if body == "" {
      assert body + padding == padding;
    } else {
      assert (body + padding)[1..] == body[1..] + padding && body[0] in body;
      SpanOfBody(body[1..], padding);
    }
  }

  lemma {:induction false} BodyOfSpan(text: string)
    ensures forall i :: 0 <= i < Base64Span(text) ==> Base64Unit(text[i])
  {
    if text != "" && Base64Unit(text[0]) {
      BodyOfSpan(text[1..]);
      assert forall i :: 1 <= i < Base64Span(text) ==> text[i] == text[1..][i - 1];
    }
  }

  lemma SignatureIff(text: string)
    ensures Base64Text(text) <==> exists body, padding :: Signed(text, body, padding)
  {
    if Base64Text(text) {
      var n := Base64Span(text);
      BodyOfSpan(text);
      var body, padding := text[..n], text[n..];
      assert text == body + padding;
      assert |padding| == 1 ==> padding == "=";
      assert |padding| == 2 ==> padding == "==";
      assert Signed(text, body, padding);
    }
    if body, padding :| Signed(text, body, padding) {
      SpanOfBody(body, padding);
    }
  }

  /** Sixty-four lower-case hexadecimal digits. */
  predicate KeyText(s: string) {
    |s| == 64 && forall c :: c in s ==> '0' <= c <= '9' || 'a' <= c <= 'f'
  }

  lemma KeyIff(s: string)
    ensures HexKey(s) <==> KeyText(s)
  {
    if KeyText(s) {
      forall i | 0 <= i < |s| ensures '0' <= s[i] <= '9' || 'a' <= s[i] <= 'f' {
        assert s[i] in s;
      }
    }
  }

  // ----- one artifact -----

  /** The artifact's time has not come yet; a time that does not parse is not held against it. */
  predicate Current(trust: Trust, expiresAt: string, now: string) {
    trust.parse(expiresAt).Some? && trust.parse(now).Some? ==> trust.parse(now).value < trust.parse(expiresAt).value
  }

  /** What is asked of an artifact of either kind. */
  ghost predicate Acceptable(trust: Trust, a: Artifact, issuer: Issuer, request: Request) {
    && !a.payload.unknownFields
    && a.payload.runId == request.runId && a.payload.planFingerprint == request.planFingerprint
    && a.payload.executableFingerprint == request.executableFingerprint
    && Current(trust, a.payload.expiresAt, request.now)
    && a.payload.issuerCredentialId == issuer.id && a.payload.actorId != issuer.id
    && KeyText(issuer.rawPublicKeyHex) && (exists body, padding :: Signed(a.signature, body, padding))
    && trust.signed(a.payload, issuer.rawPublicKeyHex, a.signature)
  }

  /** The operator authorizes spending and brings a nonce; the reconciler authorizes reconciliation and brings none. */
  ghost predicate OperatorAccepted(trust: Trust, request: Request) {
    && request.operator.Some? && Acceptable(trust, request.operator.value, trust.operator, request)
    && request.operator.value.payload.kind.Operator?
    && request.operator.value.payload.capability == OPERATOR_CAPABILITY
    && request.operator.value.payload.nonce.Some? && request.operator.value.payload.nonce.value != ""
  }

  ghost predicate ReconcilerAccepted(trust: Trust, request: Request) {
    && request.reconciliation.Some?
    && Acceptable(trust, request.reconciliation.value, trust.reconciliation, request)
    && request.reconciliation.value.payload.kind.Reconciliation?
    && request.reconciliation.value.payload.capability == RECONCILIATION_CAPABILITY
    && request.reconciliation.value.payload.nonce.None?
  }

  lemma OperatorIff(trust: Trust, request: Request)
    ensures Verifies(trust, request.operator, Operator, request) <==> OperatorAccepted(trust, request)
  {
    if request.operator.Some? {
      SignatureIff(request.operator.value.signature);
      KeyIff(trust.operator.rawPublicKeyHex);
    }
  }

  lemma ReconcilerIff(trust: Trust, request: Request)
    ensures Verifies(trust, request.reconciliation, Reconciliation, request) <==> ReconcilerAccepted(trust, request)
  {
    if request.reconciliation.Some? {
      SignatureIff(request.reconciliation.value.signature);
      KeyIff(trust.reconciliation.rawPublicKeyHex);
    }
  }

  // ----- the decision -----

  /** The two artifacts come from one actor, or from one issuer credential. */
  predicate OneAuthority(request: Request) {
    && request.operator.Some? && request.reconciliation.Some?
    && (request.operator.value.payload.actorId == request.reconciliation.value.payload.actorId
        || request.operator.value.payload.issuerCredentialId
           == request.reconciliation.value.payload.issuerCredentialId)
  }

  /** What a receipt says besides its status: when it was judged, what was expected and what was presented. */
  predicate Describes(receipt: Receipt, kind: Kind, request: Request, artifact: Option<Artifact>, active: bool) {
    && receipt.kind == kind && receipt.databaseValidationTime == request.now
    && receipt.expected == OfExpectation(request.runId, request.planFingerprint, request.executableFingerprint)
    && receipt.reasonCode == (if active then "valid_pair" else "absent_or_invalid_pair")
    && (artifact.None? ==>
          receipt.presented.None? && receipt.credentialId.None? && receipt.issuerCredentialId.None?)
    && (artifact.Some? ==>
          && receipt.presented == Some(OfArtifact(artifact.value))
          && receipt.credentialId == Some(artifact.value.payload.actorId)
          && receipt.issuerCredentialId == Some(artifact.value.payload.issuerCredentialId))
  }

  /**
    The decision on any request: active exactly when both artifacts are accepted and come from two authorities; one
    accepted artifact alone is valid but unused, and two of one authority invalidate each other.
   */
  lemma DecisionIs(trust: Trust, request: Request)
    ensures var d := DecisionFor(trust, request);
            var o, r := OperatorAccepted(trust, request), ReconcilerAccepted(trust, request);
            var both := o && r && OneAuthority(request);
            && (d.active <==> o && r && !both)
            && d.id == AuthorizationId(request.now, d.operatorReceipt.expected, o && !both, r && !both)
            && d.operatorReceipt.status == (if d.active then "consumed"
                                            else if o && !both then "valid_not_consumed_peer_invalid"
                                            else "absent_or_invalid")
            && d.reconciliationReceipt.status == (if d.active then "validated"
                                                  else if r && !both then "valid_not_activated_peer_invalid"
                                                  else "absent_or_invalid")
            && Describes(d.operatorReceipt, Operator, request, request.operator, d.active)
            && Describes(d.reconciliationReceipt, Reconciliation, request, request.reconciliation, d.active)
  {
    OperatorIff(trust, request);
    ReconcilerIff(trust, request);
  }

  /** What is active at a time was active at every earlier one: time only takes authority away. */
  lemma LaterIsNoBetter(trust: Trust, request: Request, later: string)
    requires trust.parse(request.now).Some? && trust.parse(later).Some?
    requires trust.parse(request.now).value <= trust.parse(later).value
    ensures DecisionFor(trust, request.(now := later)).active ==> DecisionFor(trust, request).active
  {
    DecisionIs(trust, request);
    DecisionIs(trust, request.(now := later));
  }

  /**
    A run that commits a failure before the decision: whatever is called later, it answers an inactive decision whose
    two receipts give the reason and time, expect nothing, present nothing and consume nothing.
   */
  lemma FailureIs(trust: Trust, calls: seq<Call>, k: nat)
    requires FirstCommit(calls, k) && calls[k].FailPredecision?
    ensures var s := Run(trust, calls).0;
            && s.committed.Some? && !s.committed.value.active && s.consumedNonces == {}
            && var d, call := s.committed.value, calls[k];
            && d.id == ReadinessFailedId(call.reasonCode)
            && d.operatorReceipt.kind.Operator? && d.reconciliationReceipt == d.operatorReceipt.(kind := Reconciliation)
            && d.operatorReceipt.status == "readiness_failed" && d.operatorReceipt.reasonCode == call.reasonCode
            && d.operatorReceipt.databaseValidationTime == call.now && d.operatorReceipt.expected.Zeros?
            && d.operatorReceipt.presented.None? && d.operatorReceipt.credentialId.None?
            && d.operatorReceipt.issuerCredentialId.None?
  {
    RunFollowsFirst(trust, calls);
    RecoverySucceeds(FRESH.(committed := Some(ReadinessFailed(calls[k].reasonCode, calls[k].now))));
  }

  /** And a run that commits a decision on a request answers the decision described above. */
  lemma CommittedIs(trust: Trust, calls: seq<Call>, k: nat)
    requires FirstCommit(calls, k) && calls[k].Decide?
    ensures Run(trust, calls).0.committed == Some(DecisionFor(trust, calls[k].request))
  {
    RunFollowsFirst(trust, calls);
    PublishCommittedFacts(Commit(FRESH, trust, calls[k].request), NoCrash);
  }
}
