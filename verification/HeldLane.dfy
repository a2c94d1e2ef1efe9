/**
  The held lane: when one member's outcome becomes ambiguous every member still open is held, and the lane
  resumes at a five-minute boundary once the hold has emptied. One member may go unusable; a second fails the run.
 */
module HeldLane {
  import opened Results
  import opened Sorting

  datatype Member = Member(terminal: bool, pending: bool)

  datatype Resolution = BilledWithResponse | NotBilled | BilledNoResponse | Unresolved

  /** `order` lists the members as they were planned. */
  datatype Lane = Lane(order: seq<string>, members: map<string, Member>, held: seq<string>, holdCreationCount: nat,
                       resumeAt: Option<int>, allowanceOwner: Option<string>, globalFailed: bool)

  datatype Op =
    | EnterAmbiguity(id: string)
    | Terminalize(id: string, at: int)
    | Resolve(id: string, outcome: Resolution, at: int)
    | PreAmbiguityReject(id: string, at: int)

  // ----- the operations -----

  function Dedup(ids: seq<string>): seq<string> {
    if ids == [] then []
    else
      var front := Dedup(ids[..|ids| - 1]);
      if ids[|ids| - 1] in front then front else front + [ids[|ids| - 1]]
  }

  function Planned(ids: seq<string>): Lane {
    Lane(Dedup(ids), map id | id in ids :: Member(false, false), [], 0, None, None, false)
  }

  function Open(order: seq<string>, members: map<string, Member>): seq<string> {
    if order == [] then []
    else (if order[0] in members && !members[order[0]].terminal then [order[0]] else []) + Open(order[1..], members)
  }

  function RemoveFirst(s: seq<string>, id: string): seq<string> {
    if s == [] then [] else if s[0] == id then s[1..] else [s[0]] + RemoveFirst(s[1..], id)
  }

  function ResumeEpochSecond(at: int): int {
    300 * (at / 300 + 1)
  }

  function ClaimAllowance(lane: Lane, id: string): Lane {
    if lane.allowanceOwner.None? then lane.(allowanceOwner := Some(id))
    else if lane.allowanceOwner.value != id then lane.(globalFailed := true)
    else lane
  }

  function RemoveHeld(lane: Lane, id: string, at: int): Lane {
    var held := RemoveFirst(lane.held, id);
    if id !in lane.held then lane
    else if held == [] && !lane.globalFailed then lane.(held := held, resumeAt := Some(ResumeEpochSecond(at)))
    else lane.(held := held)
  }

  function Close(lane: Lane, id: string): Lane
    requires id in lane.members
  {
    lane.(members := lane.members[id := lane.members[id].(terminal := true)])
  }

  predicate Claims(op: Op) {
    op.PreAmbiguityReject? || (op.Resolve? && (op.outcome.NotBilled? || op.outcome.BilledNoResponse?))
  }

  predicate Unresolves(op: Op) {
    op.Resolve? && op.outcome.Unresolved?
  }

  function Apply(lane: Lane, op: Op): (Lane, Result<()>) {
    if op.id !in lane.members then (lane, Err("UNPLANNED_REQUEST_ID"))
    else
      var member := lane.members[op.id];
      match op
      case EnterAmbiguity(id) =>
        if member.terminal then (lane, Err("MEMBER_ALREADY_TERMINAL"))
        else
          var holding := if lane.held != [] then lane
                         else lane.(held := Sort(TextLeq, Open(lane.order, lane.members)),
                                    holdCreationCount := lane.holdCreationCount + 1);
          (holding.(members := lane.members[id := member.(pending := true)]), Ok(()))
      case Terminalize(id, at) =>
        (if member.terminal then lane else RemoveHeld(Close(lane, id), id, at), Ok(()))
      case Resolve(id, outcome, at) =>
        if !member.pending || member.terminal then (lane, Err("MEMBER_NOT_RECONCILIATION_PENDING"))
        else
          var claimed := if Claims(op) then ClaimAllowance(Close(lane, id), id) else Close(lane, id);
          var judged := if Unresolves(op) then claimed.(globalFailed := true) else claimed;
          (RemoveHeld(judged, id, at), Ok(()))
      case PreAmbiguityReject(id, at) =>
        if member.terminal then (lane, Err("MEMBER_ALREADY_TERMINAL"))
        else (RemoveHeld(ClaimAllowance(Close(lane, id), id), id, at), Ok(()))
  }

  function Run(ids: seq<string>, ops: seq<Op>): (r: (Lane, seq<Result<()>>))
    ensures |r.1| == |ops|
  {
    if ops == [] then (Planned(ids), [])
    else
      var (before, results) := Run(ids, ops[..|ops| - 1]);
      var (after, result) := Apply(before, ops[|ops| - 1]);
      (after, results + [result])
  }

  // ----- what every run keeps -----

  predicate Distinct(s: seq<string>) {
    forall i, j :: 0 <= i < j < |s| ==> s[i] != s[j]
  }

  predicate IsOpen(lane: Lane, id: string) {
    id in lane.members && !lane.members[id].terminal
  }

  /** A non-empty hold is exactly the set of open members; after a hold has been made and emptied, no member is open. */
  ghost predicate HoldInv(lane: Lane) {
    && Distinct(lane.order) && (forall id :: id in lane.order <==> id in lane.members)
    && Distinct(lane.held)
    && (lane.held != [] ==> forall id :: id in lane.held <==> IsOpen(lane, id))
    && lane.holdCreationCount <= 1
    && (lane.held != [] ==> lane.holdCreationCount == 1)
    && (lane.holdCreationCount == 1 && lane.held == [] ==> forall id :: !IsOpen(lane, id))
    && (forall id :: IsOpen(lane, id) && lane.members[id].pending ==> lane.held != [])
  }

  /** The lane is scheduled to resume exactly when its hold has closed without a global failure. */
  predicate ResumeInv(lane: Lane) {
    lane.resumeAt.Some? <==> lane.holdCreationCount == 1 && lane.held == [] && !lane.globalFailed
  }

  ghost predicate Accepted(ops: seq<Op>, results: seq<Result<()>>, i: nat)
    requires |ops| == |results|
  {
    i < |ops| && results[i].Ok?
  }

  /** Some member resolved unresolved, or two different members claimed the one allowance. */
  ghost predicate Failed(ops: seq<Op>, results: seq<Result<()>>)
    requires |ops| == |results|
  {
    || (exists i: nat :: Accepted(ops, results, i) && Unresolves(ops[i]))
    || (exists i: nat, j: nat :: Accepted(ops, results, i) && Accepted(ops, results, j)
                                 && Claims(ops[i]) && Claims(ops[j]) && ops[i].id != ops[j].id)
  }

  /** The owner of the allowance is a member that claimed it, and the run has failed exactly when it should. */
  ghost predicate FailInv(lane: Lane, ops: seq<Op>, results: seq<Result<()>>)
    requires |ops| == |results|
  {
    && (forall i: nat :: Accepted(ops, results, i) && Claims(ops[i]) ==> lane.allowanceOwner.Some?)
    && (lane.allowanceOwner.Some? ==>
          exists i: nat :: Accepted(ops, results, i) && Claims(ops[i]) && ops[i].id == lane.allowanceOwner.value)
    && (lane.globalFailed <==> Failed(ops, results))
  }

  lemma {:induction false} RemoveFirstFacts(s: seq<string>, id: string)
    requires Distinct(s)
    ensures Distinct(RemoveFirst(s, id))
    ensures forall k :: k in RemoveFirst(s, id) <==> k in s && k != id
  {
    if s != [] {
      assert s == [s[0]] + s[1..];
      if s[0] == id {
        assert forall k :: k in s[1..] ==> k != id;
      } else {
        RemoveFirstFacts(s[1..], id);
        var rest := RemoveFirst(s[1..], id);
        assert s[0] !in rest;
      }
    }
  }

  lemma {:induction false} OpenFacts(order: seq<string>, members: map<string, Member>)
    requires Distinct(order)
    ensures Distinct(Open(order, members))
    ensures forall id :: id in Open(order, members) <==> id in order && id in members && !members[id].terminal
  {
    if order != [] {
      OpenFacts(order[1..], members);
      assert order == [order[0]] + order[1..];
    }
  }

  lemma {:induction false} DedupFacts(ids: seq<string>)
    ensures Distinct(Dedup(ids))
    ensures forall id :: id in Dedup(ids) <==> id in ids
  {
    if ids != [] {
      DedupFacts(ids[..|ids| - 1]);
      assert ids == ids[..|ids| - 1] + [ids[|ids| - 1]];
    }
  }

  lemma SortedHold(s: seq<string>)
    requires Distinct(s)
    ensures Distinct(Sort(TextLeq, s))
    ensures forall id :: id in Sort(TextLeq, s) <==> id in s
  {
    SortKeepsElements(TextLeq, s);
    SameElements(s, Sort(TextLeq, s));
  }

  lemma SameElements(s: seq<string>, t: seq<string>)
    requires Distinct(s) && multiset(s) == multiset(t)
    ensures Distinct(t)
    ensures forall id :: id in t <==> id in s
  {
    assert forall id :: id in t <==> id in multiset(t);
    assert forall id :: id in s <==> id in multiset(s);
    forall id ensures multiset(t)[id] <= 1 {
      AtMostOnce(s, id);
    }
    OnceEach(t);
  }

  lemma {:induction false} OnceEach(t: seq<string>)
    requires forall id :: multiset(t)[id] <= 1
    ensures Distinct(t)
  {
    if t != [] {
      assert t == [t[0]] + t[1..];
      assert multiset(t)[t[0]] == 1 + multiset(t[1..])[t[0]];
      assert t[0] !in multiset(t[1..]);
      forall id ensures multiset(t[1..])[id] <= 1 {
        assert multiset(t)[id] <= 1;
      }
      OnceEach(t[1..]);
    }
  }

  lemma AmbiguityKeepsHold(lane: Lane, id: string)
    requires HoldInv(lane) && ResumeInv(lane)
    ensures HoldInv(Apply(lane, EnterAmbiguity(id)).0) && ResumeInv(Apply(lane, EnterAmbiguity(id)).0)
  {
    if IsOpen(lane, id) {
      if lane.held == [] {
        NewHold(lane, id);
      } else {
        PendingKeepsHold(lane, id);
      }
    }
  }

  lemma NewHold(lane: Lane, id: string)
    requires HoldInv(lane) && ResumeInv(lane) && IsOpen(lane, id) && lane.held == []
    ensures HoldInv(Apply(lane, EnterAmbiguity(id)).0) && ResumeInv(Apply(lane, EnterAmbiguity(id)).0)
  {
    var open := Open(lane.order, lane.members);
    OpenFacts(lane.order, lane.members);
    SortedHold(open);
    assert id in Sort(TextLeq, open);
    var after := Apply(lane, EnterAmbiguity(id)).0;
    assert forall k :: IsOpen(after, k) <==> IsOpen(lane, k);
  }

  lemma PendingKeepsHold(lane: Lane, id: string)
    requires HoldInv(lane) && ResumeInv(lane) && IsOpen(lane, id) && lane.held != []
    ensures HoldInv(Apply(lane, EnterAmbiguity(id)).0) && ResumeInv(Apply(lane, EnterAmbiguity(id)).0)
  {
    var after := Apply(lane, EnterAmbiguity(id)).0;
    assert forall k :: IsOpen(after, k) <==> IsOpen(lane, k);
  }

  /** Closing one open member, whatever it does to the allowance, keeps the hold exact. */
  lemma ClosingKeepsHold(lane: Lane, closed: Lane, id: string, at: int)
    requires HoldInv(lane) && ResumeInv(lane) && IsOpen(lane, id)
    requires closed.members == Close(lane, id).members
    requires closed.order == lane.order && closed.held == lane.held
             && closed.holdCreationCount == lane.holdCreationCount
    requires closed.resumeAt == lane.resumeAt && (lane.globalFailed ==> closed.globalFailed)
    ensures HoldInv(RemoveHeld(closed, id, at)) && ResumeInv(RemoveHeld(closed, id, at))
  {
    RemoveFirstFacts(lane.held, id);
    var after := RemoveHeld(closed, id, at);
    assert forall k :: IsOpen(after, k) <==> IsOpen(lane, k) && k != id;
    if lane.held != [] && after.held == [] {
      forall k ensures !IsOpen(after, k) {
        assert k in after.held <==> k in lane.held && k != id;
      }
    }
    if lane.held != [] {
      assert id in lane.held;
    }
  }

  lemma StepKeepsHold(lane: Lane, op: Op)
    requires HoldInv(lane) && ResumeInv(lane)
    ensures HoldInv(Apply(lane, op).0) && ResumeInv(Apply(lane, op).0)
  {
    if op.EnterAmbiguity? {
      AmbiguityKeepsHold(lane, op.id);
    } else if IsOpen(lane, op.id) {
      var after := Apply(lane, op).0;
      if after != lane {
        var closed := ClosedBy(lane, op);
        ClosingKeepsHold(lane, closed, op.id, op.at);
      }
    } else {
      ClosedMemberStep(lane, op);
    }
  }

  /** A step that closes an open member: what it does before taking the member off the hold. */
  lemma ClosedBy(lane: Lane, op: Op) returns (closed: Lane)
    requires IsOpen(lane, op.id) && !op.EnterAmbiguity? && Apply(lane, op).0 != lane
    ensures Apply(lane, op).0 == RemoveHeld(closed, op.id, op.at)
    ensures closed.members == Close(lane, op.id).members
    ensures closed.order == lane.order && closed.held == lane.held && closed.holdCreationCount == lane.holdCreationCount
    ensures closed.resumeAt == lane.resumeAt && (lane.globalFailed ==> closed.globalFailed)
  {
    closed := Close(lane, op.id);
    if Claims(op) {
      closed := ClaimAllowance(closed, op.id);
    }
    if Unresolves(op) {
      closed := closed.(globalFailed := true);
    }
  }

  lemma StepKeepsFailure(lane: Lane, ops: seq<Op>, results: seq<Result<()>>, op: Op)
    requires |ops| == |results| && FailInv(lane, ops, results)
    ensures var (after, result) := Apply(lane, op); FailInv(after, ops + [op], results + [result])
  {
    var (after, result) := Apply(lane, op);
    var ops', results' := ops + [op], results + [result];
    assert forall i: nat :: i < |ops| ==> ops'[i] == ops[i] && results'[i] == results[i];
    assert forall i: nat :: Accepted(ops', results', i) <==> Accepted(ops, results, i) || (i == |ops| && result.Ok?);
    assert ops'[|ops|] == op && results'[|ops|] == result;
    AllowanceStep(lane, op);
    if Failed(ops, results) {
      FailureLasts(ops, results, op, result);
    }
    if result.Ok? && Unresolves(op) {
      assert Accepted(ops', results', |ops|);
    }
    if lane.allowanceOwner.Some? {
      var i: nat :| Accepted(ops, results, i) && Claims(ops[i]) && ops[i].id == lane.allowanceOwner.value;
      assert Accepted(ops', results', i) && Claims(ops'[i]) && ops'[i].id == lane.allowanceOwner.value;
      if result.Ok? && Claims(op) && op.id != lane.allowanceOwner.value {
        assert Accepted(ops', results', |ops|) && Claims(ops'[|ops|]) && ops'[i].id != ops'[|ops|].id;
      }
    } else if result.Ok? && Claims(op) {
      assert Accepted(ops', results', |ops|) && Claims(ops'[|ops|]);
    }
    if Failed(ops', results') && !Failed(ops, results) {
      NewFailure(ops, results, op, result);
    }
  }

  lemma FailureLasts(ops: seq<Op>, results: seq<Result<()>>, op: Op, result: Result<()>)
    requires |ops| == |results| && Failed(ops, results)
    ensures Failed(ops + [op], results + [result])
  {
    var ops', results' := ops + [op], results + [result];
    if i: nat :| Accepted(ops, results, i) && Unresolves(ops[i]) {
      assert Accepted(ops', results', i) && Unresolves(ops'[i]);
    } else {
      var i: nat, j: nat :| Accepted(ops, results, i) && Accepted(ops, results, j)
                            && Claims(ops[i]) && Claims(ops[j]) && ops[i].id != ops[j].id;
      assert Accepted(ops', results', i) && Accepted(ops', results', j) && ops'[i].id != ops'[j].id;
    }
  }

  lemma NewFailure(ops: seq<Op>, results: seq<Result<()>>, op: Op, result: Result<()>)
    requires |ops| == |results| && Failed(ops + [op], results + [result])
    ensures Failed(ops, results)
            || (result.Ok? && Unresolves(op))
            || (result.Ok? && Claims(op)
                && exists i: nat :: Accepted(ops, results, i) && Claims(ops[i]) && ops[i].id != op.id)
  {
    var ops', results' := ops + [op], results + [result];
    if i: nat :| Accepted(ops', results', i) && Unresolves(ops'[i]) {
      if i < |ops| {
        assert Accepted(ops, results, i) && Unresolves(ops[i]);
      }
    } else {
      var i: nat, j: nat :| Accepted(ops', results', i) && Accepted(ops', results', j)
                            && Claims(ops'[i]) && Claims(ops'[j]) && ops'[i].id != ops'[j].id;
      if i < |ops| {
        assert Accepted(ops, results, i) && Claims(ops[i]);
      }
      if j < |ops| {
        assert Accepted(ops, results, j) && Claims(ops[j]);
      }
    }
  }

  lemma AllowanceStep(lane: Lane, op: Op)
    ensures var (after, result) := Apply(lane, op);
            && (result.Err? ==> after == lane)
            && after.allowanceOwner == (if result.Ok? && Claims(op) && lane.allowanceOwner.None? then Some(op.id)
                                        else lane.allowanceOwner)
            && (after.globalFailed <==>
                  || lane.globalFailed
                  || (result.Ok? && Unresolves(op))
                  || (result.Ok? && Claims(op) && lane.allowanceOwner.Some? && lane.allowanceOwner.value != op.id))
  {
  }

  lemma {:induction false} RunKeeps(ids: seq<string>, ops: seq<Op>)
    ensures HoldInv(Run(ids, ops).0) && ResumeInv(Run(ids, ops).0)
    ensures FailInv(Run(ids, ops).0, ops, Run(ids, ops).1)
  {
    if ops == [] {
      DedupFacts(ids);
    } else {
      var front, op := ops[..|ops| - 1], ops[|ops| - 1];
      assert ops == front + [op];
      RunKeeps(ids, front);
      StepKeepsHold(Run(ids, front).0, op);
      StepKeepsFailure(Run(ids, front).0, front, Run(ids, front).1, op);
    }
  }

  /** Over every run: a hold is always the set of open members, and there is never a second hold. */
  lemma HoldIsOpenMembers(ids: seq<string>, ops: seq<Op>)
    ensures var lane := Run(ids, ops).0;
            && (lane.held != [] ==> forall id :: id in lane.held <==> IsOpen(lane, id))
            && lane.holdCreationCount <= 1
  {
    RunKeeps(ids, ops);
  }

  lemma {:induction false} RemovedStaysSorted(s: seq<string>, id: string)
    requires Sorted(TextLeq, s)
    ensures Sorted(TextLeq, RemoveFirst(s, id)) && forall x :: x in RemoveFirst(s, id) ==> x in s
  {
    if s != [] && s[0] != id {
      var rest := RemoveFirst(s[1..], id);
      RemovedStaysSorted(s[1..], id);
      forall j | 0 <= j < |rest| ensures TextLeq(s[0], rest[j]) {
        assert rest[j] in s[1..];
      }
    }
  }

  lemma StepKeepsOrder(lane: Lane, op: Op)
    requires Sorted(TextLeq, lane.held)
    ensures Sorted(TextLeq, Apply(lane, op).0.held)
  {
    if op.EnterAmbiguity? {
      TextOrder();
      SortSorts(TextLeq, Open(lane.order, lane.members));
    } else if !IsOpen(lane, op.id) {
      ClosedMemberStep(lane, op);
    } else if Apply(lane, op).0 != lane {
      var closed := ClosedBy(lane, op);
      RemovalKeepsOrder(lane, closed, op.id, op.at);
    }
  }

  lemma RemovalKeepsOrder(lane: Lane, closed: Lane, id: string, at: int)
    requires Sorted(TextLeq, lane.held) && closed.held == lane.held
    ensures Sorted(TextLeq, RemoveHeld(closed, id, at).held)
  {
    RemovedStaysSorted(lane.held, id);
  }

  /** Over every run: the hold lists its members in ascending order. */
  lemma {:induction false} HoldIsInOrder(ids: seq<string>, ops: seq<Op>)
    ensures Sorted(TextLeq, Run(ids, ops).0.held)
  {
    if ops != [] {
      HoldIsInOrder(ids, ops[..|ops| - 1]);
      StepKeepsOrder(Run(ids, ops[..|ops| - 1]).0, ops[|ops| - 1]);
    }
  }

  /**
    Over every run: the lane has failed exactly when a member resolved unresolved or two members claimed the
    allowance.
   */
  lemma GlobalFailureIff(ids: seq<string>, ops: seq<Op>)
    ensures Run(ids, ops).0.globalFailed <==> Failed(ops, Run(ids, ops).1)
  {
    RunKeeps(ids, ops);
  }

  /**
    Over every run: once set, the resume time never changes; it is set by exactly the step that closes the
    hold without a global failure, to the first multiple of 300 strictly after that step's time.
   */
  lemma ResumeIsSetOnce(ids: seq<string>, ops: seq<Op>, op: Op)
    ensures var before, after := Run(ids, ops).0, Apply(Run(ids, ops).0, op).0;
            && (before.resumeAt.Some? ==> after.resumeAt == before.resumeAt && !after.globalFailed)
            && (before.resumeAt.None? ==>
                  (after.resumeAt.Some? <==> before.held != [] && after.held == [] && !after.globalFailed))
            && (before.resumeAt.None? && after.resumeAt.Some? ==>
                  !op.EnterAmbiguity? && after.resumeAt.value % 300 == 0
                  && op.at < after.resumeAt.value && after.resumeAt.value - 300 <= op.at)
  {
    RunKeeps(ids, ops);
    StepResume(Run(ids, ops).0, op);
    if Apply(Run(ids, ops).0, op).0.resumeAt.Some? && !op.EnterAmbiguity? {
      NextBoundary(op.at);
    }
  }

  lemma NextBoundary(at: int)
    ensures ResumeEpochSecond(at) % 300 == 0 && at < ResumeEpochSecond(at) && ResumeEpochSecond(at) - 300 <= at
  {
  }

  /** What one step does to the resume time of a lane that keeps its invariants. */
  lemma StepResume(lane: Lane, op: Op)
    requires HoldInv(lane) && ResumeInv(lane)
    ensures var after := Apply(lane, op).0;
            && (lane.resumeAt.Some? ==> after.resumeAt == lane.resumeAt && !after.globalFailed)
            && (lane.resumeAt.None? ==>
                (after.resumeAt.Some? <==> lane.held != [] && after.held == [] && !after.globalFailed))
            && (lane.resumeAt.None? && after.resumeAt.Some? ==>
                  !op.EnterAmbiguity? && after.resumeAt.value == ResumeEpochSecond(op.at))
  {
    if IsOpen(lane, op.id) {
      OpenStepResume(lane, op);
    } else {
      ClosedMemberStep(lane, op);
    }
  }

  /** Only operations on open members change anything. */
  lemma ClosedMemberStep(lane: Lane, op: Op)
    requires !IsOpen(lane, op.id)
    ensures Apply(lane, op).0 == lane
  {
  }

  lemma OpenStepResume(lane: Lane, op: Op)
    requires HoldInv(lane) && ResumeInv(lane) && IsOpen(lane, op.id)
    ensures lane.resumeAt.None?
    ensures var after := Apply(lane, op).0;
            && (after.resumeAt.Some? <==> lane.held != [] && after.held == [] && !after.globalFailed)
            && (after.resumeAt.Some? ==> !op.EnterAmbiguity? && after.resumeAt.value == ResumeEpochSecond(op.at))
  {
    if op.EnterAmbiguity? {
      EnterResume(lane, op.id);
    } else if Apply(lane, op).0 == lane {
      NothingChanges(lane);
    } else {
      var closed := ClosedBy(lane, op);
      CloseResume(lane, closed, op.id, op.at);
    }
  }

  lemma EnterResume(lane: Lane, id: string)
    requires HoldInv(lane) && ResumeInv(lane) && IsOpen(lane, id)
    ensures lane.resumeAt.None? && Apply(lane, EnterAmbiguity(id)).0.resumeAt.None?
            && Apply(lane, EnterAmbiguity(id)).0.held != []
  {
    OpenFacts(lane.order, lane.members);
    assert id in Open(lane.order, lane.members);
    SortedHold(Open(lane.order, lane.members));
    assert id in Sort(TextLeq, Open(lane.order, lane.members));
  }

  lemma NothingChanges(lane: Lane)
    requires HoldInv(lane) && ResumeInv(lane) && exists id :: IsOpen(lane, id)
    ensures lane.resumeAt.None?
  {
  }

  /** Taking a closed member off the hold: the time is set exactly when that empties the hold. */
  lemma CloseResume(lane: Lane, closed: Lane, id: string, at: int)
    requires HoldInv(lane) && ResumeInv(lane) && IsOpen(lane, id)
    requires closed.held == lane.held && closed.resumeAt == lane.resumeAt
    ensures lane.resumeAt.None?
    ensures var after := RemoveHeld(closed, id, at);
            && (after.resumeAt.Some? <==> lane.held != [] && after.held == [] && !after.globalFailed)
            && (after.resumeAt.Some? ==> after.resumeAt.value == ResumeEpochSecond(at))
  {
    assert lane.held != [] ==> id in lane.held;
  }

  // ----- what an operation answers -----

  /** Some accepted operation on the member closed it. */
  ghost predicate ClosedEarlier(ops: seq<Op>, results: seq<Result<()>>, id: string)
    requires |ops| == |results|
  {
    exists i: nat :: Accepted(ops, results, i) && !ops[i].EnterAmbiguity? && ops[i].id == id
  }

  /** The member's outcome became ambiguous. */
  ghost predicate EnteredEarlier(ops: seq<Op>, results: seq<Result<()>>, id: string)
    requires |ops| == |results|
  {
    exists i: nat :: Accepted(ops, results, i) && ops[i].EnterAmbiguity? && ops[i].id == id
  }

  lemma EarlierStep(ops: seq<Op>, results: seq<Result<()>>, op: Op, result: Result<()>, id: string)
    requires |ops| == |results|
    ensures ClosedEarlier(ops + [op], results + [result], id) <==>
              ClosedEarlier(ops, results, id) || (result.Ok? && !op.EnterAmbiguity? && op.id == id)
    ensures EnteredEarlier(ops + [op], results + [result], id) <==>
              EnteredEarlier(ops, results, id) || (result.Ok? && op.EnterAmbiguity? && op.id == id)
  {
    var ops', results' := ops + [op], results + [result];
    assert forall i: nat :: i < |ops| ==> ops'[i] == ops[i] && results'[i] == results[i];
    forall i: nat ensures Accepted(ops', results', i) <==>
                            Accepted(ops, results, i) || (i == |ops| && result.Ok?)
    {
    }
    if result.Ok? && op.id == id {
      assert Accepted(ops', results', |ops|) && ops'[|ops|] == op;
    }
    if ClosedEarlier(ops, results, id) {
      var i: nat :| Accepted(ops, results, i) && !ops[i].EnterAmbiguity? && ops[i].id == id;
      assert Accepted(ops', results', i) && !ops'[i].EnterAmbiguity? && ops'[i].id == id;
    }
    if EnteredEarlier(ops, results, id) {
      var i: nat :| Accepted(ops, results, i) && ops[i].EnterAmbiguity? && ops[i].id == id;
      assert Accepted(ops', results', i) && ops'[i].EnterAmbiguity? && ops'[i].id == id;
    }
  }

  /** What one step does to its member; the others stay as they are. */
  lemma MemberStep(lane: Lane, op: Op)
    ensures var (after, result) := Apply(lane, op);
            if result.Err? then after == lane
            else
              && op.id in lane.members
              && (var m := lane.members[op.id];
                  after.members == lane.members[op.id := if op.EnterAmbiguity? then m.(pending := true)
                                                         else m.(terminal := true)])
  {
    var (after, result) := Apply(lane, op);
    if result.Ok? && !op.EnterAmbiguity? {
      if IsOpen(lane, op.id) {
        ClosingStep(lane, op);
      } else {
        assert lane.members[op.id] == lane.members[op.id].(terminal := true);
      }
    }
  }

  lemma ClosingStep(lane: Lane, op: Op)
    requires IsOpen(lane, op.id) && !op.EnterAmbiguity? && Apply(lane, op).1.Ok?
    ensures Apply(lane, op).0.members == Close(lane, op.id).members
  {
  }

  lemma {:induction false} MembersTellHistory(ids: seq<string>, ops: seq<Op>)
    ensures var (lane, results) := Run(ids, ops);
            && (forall id :: id in lane.members <==> id in ids)
            && (forall id :: id in ids ==>
                  && (lane.members[id].terminal <==> ClosedEarlier(ops, results, id))
                  && (lane.members[id].pending <==> EnteredEarlier(ops, results, id)))
  {
    if ops != [] {
      var front, op := ops[..|ops| - 1], ops[|ops| - 1];
      assert ops == front + [op];
      MembersTellHistory(ids, front);
      var (before, results) := Run(ids, front);
      MemberStep(before, op);
      forall id | id in ids
        ensures Run(ids, ops).0.members[id].terminal <==> ClosedEarlier(ops, Run(ids, ops).1, id)
        ensures Run(ids, ops).0.members[id].pending <==> EnteredEarlier(ops, Run(ids, ops).1, id)
      {
        EarlierStep(front, results, op, Apply(before, op).1, id);
      }
    }
  }

  /**
    Over every run, what the next operation answers: an unplanned member is unknown, terminalizing a planned one
    always succeeds, a member is resolved while its outcome is ambiguous and nothing has closed it, and the other
    two operations are for members that nothing has closed.
   */
  lemma AnswerIs(ids: seq<string>, ops: seq<Op>, op: Op)
    ensures var (lane, results) := Run(ids, ops);
            Apply(lane, op).1 ==
              if op.id !in ids then Err("UNPLANNED_REQUEST_ID")
              else if op.Terminalize? then Ok(())
              else if op.Resolve? then
                (if EnteredEarlier(ops, results, op.id) && !ClosedEarlier(ops, results, op.id) then Ok(())
                 else Err("MEMBER_NOT_RECONCILIATION_PENDING"))
              else if ClosedEarlier(ops, results, op.id) then Err("MEMBER_ALREADY_TERMINAL")
              else Ok(())
  {
    MembersTellHistory(ids, ops);
  }

  // ----- the lane object -----

  class HeldLane {
    const order: seq<string>
    var members: map<string, Member>
    var held: seq<string>
    var holdCreationCount: nat
    var resumeAt: Option<int>
    var allowanceOwner: Option<string>
    var globalFailed: bool

    function View(): Lane
      reads this
    {
      Lane(order, members, held, holdCreationCount, resumeAt, allowanceOwner, globalFailed)
    }

    constructor (ids: seq<string>)
      ensures View() == Planned(ids)
    {
      order := Dedup(ids);
      members := map id | id in ids :: Member(false, false);
      held, holdCreationCount, resumeAt, allowanceOwner, globalFailed := [], 0, None, None, false;
    }

    method EnterAmbiguity(id: string) returns (r: Result<()>)
      modifies this
      ensures (View(), r) == Apply(old(View()), Op.EnterAmbiguity(id))
    {
      if id !in members {
        return Err("UNPLANNED_REQUEST_ID");
      }
      if members[id].terminal {
        return Err("MEMBER_ALREADY_TERMINAL");
      }
      if held == [] {
        held := Sort(TextLeq, Open(order, members));
        holdCreationCount := holdCreationCount + 1;
      }
      members := members[id := members[id].(pending := true)];
      r := Ok(());
    }

    method Terminalize(id: string, at: int) returns (r: Result<()>)
      modifies this
      ensures (View(), r) == Apply(old(View()), Op.Terminalize(id, at))
    {
      if id !in members {
        return Err("UNPLANNED_REQUEST_ID");
      }
      if members[id].terminal {
        return Ok(());
      }
      members := members[id := members[id].(terminal := true)];
      TakeOffHold(id, at);
      r := Ok(());
    }

    method Resolve(id: string, outcome: Resolution, at: int) returns (r: Result<()>)
      modifies this
      ensures (View(), r) == Apply(old(View()), Op.Resolve(id, outcome, at))
    {
      if id !in members {
        return Err("UNPLANNED_REQUEST_ID");
      }
      if !members[id].pending || members[id].terminal {
        return Err("MEMBER_NOT_RECONCILIATION_PENDING");
      }
      members := members[id := members[id].(terminal := true)];
      if outcome.NotBilled? || outcome.BilledNoResponse? {
        ClaimAllowanceOrFail(id);
      }
      if outcome.Unresolved? {
        globalFailed := true;
      }
      TakeOffHold(id, at);
      r := Ok(());
    }

    method PreAmbiguityReject(id: string, at: int) returns (r: Result<()>)
      modifies this
      ensures (View(), r) == Apply(old(View()), Op.PreAmbiguityReject(id, at))
    {
      if id !in members {
        return Err("UNPLANNED_REQUEST_ID");
      }
      if members[id].terminal {
        return Err("MEMBER_ALREADY_TERMINAL");
      }
      members := members[id := members[id].(terminal := true)];
      ClaimAllowanceOrFail(id);
      TakeOffHold(id, at);
      r := Ok(());
    }

    method ClaimAllowanceOrFail(id: string)
      modifies this`allowanceOwner, this`globalFailed
      ensures View() == ClaimAllowance(old(View()), id)
    {
      if allowanceOwner.None? {
        allowanceOwner := Some(id);
      } else if allowanceOwner.value != id {
        globalFailed := true;
      }
    }

    method TakeOffHold(id: string, at: int)
      modifies this`held, this`resumeAt
      ensures View() == RemoveHeld(old(View()), id, at)
    {
      if id in held {
        held := RemoveFirst(held, id);
        if held == [] && !globalFailed {
          resumeAt := Some(ResumeEpochSecond(at));
        }
      }
    }
  }
}
