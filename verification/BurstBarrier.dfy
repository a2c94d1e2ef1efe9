/** The burst barrier: planned calls commit tokens, and are then released together, or cancelled. */
module Burst {
  import opened Results

  datatype Control = Active | Failing

  datatype Barrier = Barrier(planned: seq<string>, control: Control, tokens: set<string>, released: set<string>,
                             canceled: set<string>, entered: set<string>)

  datatype Op = CommitToken(id: string) | Release | GlobalFail | EnterAdapter(id: string)

  function New(planned: seq<string>): Barrier {
    Barrier(planned, Active, {}, {}, {}, {})
  }

  function Planned(planned: seq<string>): set<string> {
    set id | id in planned
  }

  function Apply(b: Barrier, op: Op): (Barrier, Option<string>) {
    match op
    case CommitToken(id) =>
      if b.control.Failing? then (b, Some("PROTOCOL_CONTROL_FAILED"))
      else if id !in b.planned then (b, Some("UNPLANNED_REQUEST_ID"))
      else (b.(tokens := b.tokens + {id}), None)
    case Release =>
      if b.control.Failing? || |b.tokens| != |b.planned| then (b, Some("BURST_BARRIER_NOT_READY"))
      else (b.(released := b.released + Planned(b.planned)), None)
    case GlobalFail =>
      if b.control.Failing? then (b, None)
      else (b.(control := Failing, canceled := b.canceled + (b.tokens - b.released)), None)
    case EnterAdapter(id) =>
      if id !in b.released || id in b.canceled then (b, Some("BURST_DISPATCH_NOT_RELEASED"))
      else (b.(entered := b.entered + {id}), None)
  }

  function Run(planned: seq<string>, ops: seq<Op>): Barrier {
    if ops == [] then New(planned) else Apply(Run(planned, ops[..|ops| - 1]), ops[|ops| - 1]).0
  }

  ghost predicate Inv(b: Barrier) {
    && b.tokens <= Planned(b.planned)
    && (b.released == {} || (b.released == Planned(b.planned) == b.tokens && b.canceled == {}))
    && (b.control.Active? ==> b.canceled == {})
    && b.canceled <= b.tokens && b.entered <= b.released
  }

  lemma {:induction false} PlannedSize(planned: seq<string>)
    ensures |Planned(planned)| <= |planned|
    ensures |Planned(planned)| == |planned| <==> forall i, j :: 0 <= i < j < |planned| ==> planned[i] != planned[j]
  {
    if planned == [] {
      assert Planned(planned) == {};
    } else {
      var front, last := planned[..|planned| - 1], planned[|planned| - 1];
      PlannedSize(front);
      assert planned == front + [last];
      assert Planned(planned) == Planned(front) + {last};
      if last in front {
        assert Planned(planned) == Planned(front);
        var i :| 0 <= i < |front| && front[i] == last;
        assert planned[i] == planned[|planned| - 1];
      } else {
        assert last !in Planned(front);
        forall i, j | 0 <= i < j < |planned| && (forall k, l :: 0 <= k < l < |front| ==> front[k] != front[l])
          ensures planned[i] != planned[j]
        {
          assert planned[i] == front[i] && (j < |front| ==> planned[j] == front[j]);
        }
        if forall i, j :: 0 <= i < j < |planned| ==> planned[i] != planned[j] {
          forall i, j | 0 <= i < j < |front| ensures front[i] != front[j] {
            assert front[i] == planned[i] && front[j] == planned[j];
          }
        }
      }
    }
  }

  lemma SubsetOfSameSize(a: set<string>, b: set<string>)
    requires a <= b && |a| >= |b|
    ensures a == b
  {
    assert b == a + (b - a);
    assert |b| == |a| + |b - a|;
  }

  lemma ReleaseKeepsInv(b: Barrier)
    requires Inv(b)
    ensures Inv(Apply(b, Release).0)
  {
    if b.control.Active? && |b.tokens| == |b.planned| {
      PlannedSize(b.planned);
      SubsetOfSameSize(b.tokens, Planned(b.planned));
      assert Apply(b, Release).0.released == Planned(b.planned);
    }
  }

  lemma CommitKeepsInv(b: Barrier, id: string)
    requires Inv(b)
    ensures Inv(Apply(b, CommitToken(id)).0)
  {
    if id in b.planned && b.released != {} {
      assert b.tokens + {id} == b.tokens;
    }
  }

  lemma StepKeepsInv(b: Barrier, op: Op)
    requires Inv(b)
    ensures Inv(Apply(b, op).0)
  {
    match op
    case CommitToken(id) => CommitKeepsInv(b, id);
    case Release => ReleaseKeepsInv(b);
    case GlobalFail =>
      if b.released != {} {
        assert b.tokens - b.released == {};
      }
    case EnterAdapter(_) =>
  }

  lemma {:induction false} RunKeepsInv(planned: seq<string>, ops: seq<Op>)
    ensures Inv(Run(planned, ops)) && Run(planned, ops).planned == planned
  {
    if ops != [] {
      RunKeepsInv(planned, ops[..|ops| - 1]);
      StepKeepsInv(Run(planned, ops[..|ops| - 1]), ops[|ops| - 1]);
    }
  }

  /** Over every run: either nothing is released or nothing is cancelled, and a release covers every planned call. */
  lemma AllOrNothing(planned: seq<string>, ops: seq<Op>)
    ensures var b := Run(planned, ops);
            && (b.released == {} || (b.canceled == {} && b.released == Planned(planned)))
            && b.entered <= b.released && b.entered * b.canceled == {}
  {
    RunKeepsInv(planned, ops);
  }

  /** A call enters the adapter only after every planned call has its token, and never once anything is cancelled. */
  lemma EntryNeedsEveryToken(planned: seq<string>, ops: seq<Op>, id: string)
    requires id in Run(planned, ops).entered
    ensures id in planned && Run(planned, ops).tokens == Planned(planned) && Run(planned, ops).canceled == {}
  {
    RunKeepsInv(planned, ops);
  }

  /** The barrier can release exactly when it is active, every planned call has a token, and no id is planned twice. */
  lemma ReadyIff(planned: seq<string>, ops: seq<Op>)
    ensures var b := Run(planned, ops);
            Apply(b, Release).1.None? <==>
              && b.control.Active? && b.tokens == Planned(planned)
              && forall i, j :: 0 <= i < j < |planned| ==> planned[i] != planned[j]
  {
    var b := Run(planned, ops);
    RunKeepsInv(planned, ops);
    PlannedSize(planned);
    if |b.tokens| == |planned| {
      SubsetOfSameSize(b.tokens, Planned(planned));
    }
  }

  // ----- the barrier from its history -----

  /** The calls of a run that would be answered: every planned call has its token, none is planned twice. */
  ghost predicate ReadyAfter(planned: seq<string>, ops: seq<Op>) {
    && GlobalFail !in ops
    && (forall i, j :: 0 <= i < j < |planned| ==> planned[i] != planned[j])
    && (forall id :: id in planned ==> CommitToken(id) in ops)
  }

  ghost predicate ReleasedIn(planned: seq<string>, ops: seq<Op>) {
    exists i :: 0 <= i < |ops| && ops[i].Release? && ReadyAfter(planned, ops[..i])
  }

  /** The call committed its token before any failure. */
  ghost predicate CommittedIn(ops: seq<Op>, id: string) {
    exists i :: 0 <= i < |ops| && ops[i] == CommitToken(id) && GlobalFail !in ops[..i]
  }

  ghost predicate EnteredIn(planned: seq<string>, ops: seq<Op>, id: string) {
    exists i :: 0 <= i < |ops| && ops[i] == EnterAdapter(id) && ReleasedIn(planned, ops[..i])
  }

  lemma CommittedStep(front: seq<Op>, op: Op, id: string)
    ensures CommittedIn(front + [op], id) <==>
              CommittedIn(front, id) || (op == CommitToken(id) && GlobalFail !in front)
  {
    var ops := front + [op];
    assert forall i :: 0 <= i <= |front| ==> ops[..i] == front[..i];
    if i :| 0 <= i < |front| && front[i] == CommitToken(id) && GlobalFail !in front[..i] {
      assert ops[i] == CommitToken(id) && GlobalFail !in ops[..i];
    }
    if op == CommitToken(id) && GlobalFail !in front {
      assert ops[|front|] == op && ops[..|front|] == front;
    }
    if i :| 0 <= i < |ops| && ops[i] == CommitToken(id) && GlobalFail !in ops[..i] {
      if i < |front| {
        assert front[i] == CommitToken(id) && GlobalFail !in front[..i];
      } else {
        assert ops[..i] == front;
      }
    }
  }

  lemma ReleasedStep(planned: seq<string>, front: seq<Op>, op: Op)
    ensures ReleasedIn(planned, front + [op]) <==>
              ReleasedIn(planned, front) || (op.Release? && ReadyAfter(planned, front))
  {
    var ops := front + [op];
    assert forall i :: 0 <= i <= |front| ==> ops[..i] == front[..i];
    assert front[..|front|] == front;
    if i :| 0 <= i < |front| && front[i].Release? && ReadyAfter(planned, front[..i]) {
      assert ops[i].Release? && ReadyAfter(planned, ops[..i]);
    }
    if op.Release? && ReadyAfter(planned, front) {
      assert ops[|front|].Release? && ReadyAfter(planned, ops[..|front|]);
    }
    if i :| 0 <= i < |ops| && ops[i].Release? && ReadyAfter(planned, ops[..i]) {
      if i < |front| {
        assert front[i].Release? && ReadyAfter(planned, front[..i]);
      }
    }
  }

  lemma EnteredStep(planned: seq<string>, front: seq<Op>, op: Op, id: string)
    ensures EnteredIn(planned, front + [op], id) <==>
              EnteredIn(planned, front, id) || (op == EnterAdapter(id) && ReleasedIn(planned, front))
  {
    var ops := front + [op];
    assert forall i :: 0 <= i <= |front| ==> ops[..i] == front[..i];
    assert front[..|front|] == front;
    if i :| 0 <= i < |front| && front[i] == EnterAdapter(id) && ReleasedIn(planned, front[..i]) {
      assert ops[i] == EnterAdapter(id) && ReleasedIn(planned, ops[..i]);
    }
    if op == EnterAdapter(id) && ReleasedIn(planned, front) {
      assert ops[|front|] == EnterAdapter(id) && ReleasedIn(planned, ops[..|front|]);
    }
    if i :| 0 <= i < |ops| && ops[i] == EnterAdapter(id) && ReleasedIn(planned, ops[..i]) {
      if i < |front| {
        assert front[i] == EnterAdapter(id) && ReleasedIn(planned, front[..i]);
      }
    }
  }

  /** What the barrier holds after a run, told from the operations alone. */
  ghost predicate Tells(planned: seq<string>, ops: seq<Op>, b: Barrier) {
    && b.planned == planned
    && (b.control.Failing? <==> GlobalFail in ops)
    && (forall id :: id in b.tokens <==> id in planned && CommittedIn(ops, id))
    && b.released == (if ReleasedIn(planned, ops) then Planned(planned) else {})
    && b.canceled == (if GlobalFail in ops && !ReleasedIn(planned, ops) then b.tokens else {})
    && (forall id :: id in b.entered <==> id in planned && EnteredIn(planned, ops, id))
  }

  lemma TokensWithoutFailure(ops: seq<Op>, id: string)
    requires GlobalFail !in ops
    ensures CommittedIn(ops, id) <==> CommitToken(id) in ops
  {
    if CommitToken(id) in ops {
      var i :| 0 <= i < |ops| && ops[i] == CommitToken(id);
      assert GlobalFail !in ops[..i];
    }
  }

  /** The barrier releases exactly when its history says so. */
  lemma ReleaseAnswer(planned: seq<string>, ops: seq<Op>, b: Barrier)
    requires b == Run(planned, ops) && Tells(planned, ops, b)
    ensures Apply(b, Release).1.None? <==> ReadyAfter(planned, ops)
  {
    ReadyIff(planned, ops);
    if GlobalFail !in ops {
      forall id | id in planned ensures id in b.tokens <==> CommitToken(id) in ops {
        TokensWithoutFailure(ops, id);
      }
      assert b.tokens == Planned(planned) <==> forall id :: id in planned ==> id in b.tokens by {
        assert b.tokens <= Planned(planned);
      }
    }
  }

  lemma FailedHistory(planned: seq<string>, front: seq<Op>, op: Op)
    ensures GlobalFail in front + [op] <==> GlobalFail in front || op == GlobalFail
  {
    assert (front + [op])[|front|] == op;
    assert forall x :: x in front + [op] <==> x in front || x == op;
  }

  lemma TokensTell(planned: seq<string>, front: seq<Op>, op: Op, id: string)
    requires Tells(planned, front, Run(planned, front))
    ensures id in Apply(Run(planned, front), op).0.tokens <==> id in planned && CommittedIn(front + [op], id)
  {
    CommittedStep(front, op, id);
  }

  lemma EntriesTell(planned: seq<string>, front: seq<Op>, op: Op, id: string)
    requires Tells(planned, front, Run(planned, front))
    ensures id in Apply(Run(planned, front), op).0.entered <==> id in planned && EnteredIn(planned, front + [op], id)
  {
    EnteredStep(planned, front, op, id);
    if op == EnterAdapter(id) {
      EntryAnswer(planned, front, id);
    }
  }

  /** A released call is never cancelled, so only the release decides. */
  lemma EntryAnswer(planned: seq<string>, ops: seq<Op>, id: string)
    requires Tells(planned, ops, Run(planned, ops))
    ensures Apply(Run(planned, ops), EnterAdapter(id)).1.None? <==> id in planned && ReleasedIn(planned, ops)
  {
  }

  lemma ReleaseEffect(b: Barrier, op: Op)
    requires b.released == {} || b.released == Planned(b.planned)
    ensures var (c, error) := Apply(b, op);
            c.released == if op.Release? && error.None? then Planned(b.planned) else b.released
  {
    if op.Release? && Apply(b, op).1.None? {
      assert b.released + Planned(b.planned) == Planned(b.planned);
    }
  }

  lemma ControlEffect(b: Barrier, op: Op)
    ensures Apply(b, op).0.control.Failing? <==> b.control.Failing? || op == GlobalFail
  {
  }

  lemma ReleasesTell(planned: seq<string>, front: seq<Op>, op: Op)
    requires Tells(planned, front, Run(planned, front))
    ensures var c, ops := Apply(Run(planned, front), op).0, front + [op];
            && (c.control.Failing? <==> GlobalFail in ops)
            && c.released == (if ReleasedIn(planned, ops) then Planned(planned) else {})
  {
    var b := Run(planned, front);
    FailedHistory(planned, front, op);
    ControlEffect(b, op);
    ReleasedStep(planned, front, op);
    ReleaseAnswer(planned, front, b);
    ReleaseEffect(b, op);
  }

  lemma CancelsTell(planned: seq<string>, front: seq<Op>, op: Op)
    requires Tells(planned, front, Run(planned, front))
    ensures var c, ops := Apply(Run(planned, front), op).0, front + [op];
            c.canceled == if GlobalFail in ops && !ReleasedIn(planned, ops) then c.tokens else {}
  {
    RunKeepsInv(planned, front);
    FailedHistory(planned, front, op);
    ReleasedStep(planned, front, op);
    if op == GlobalFail && GlobalFail !in front {
      CancelsOnFailure(Run(planned, front));
    }
  }

  lemma CancelsOnFailure(b: Barrier)
    requires Inv(b) && b.control.Active?
    ensures Apply(b, GlobalFail).0.canceled == if b.released == {} then b.tokens else {}
    ensures b.released == {} || b.tokens == b.released
  {
    if b.released != {} {
      assert b.tokens - b.released == {};
    }
  }

  lemma StepTells(planned: seq<string>, front: seq<Op>, op: Op)
    requires Tells(planned, front, Run(planned, front))
    ensures Tells(planned, front + [op], Apply(Run(planned, front), op).0)
  {
    ReleasesTell(planned, front, op);
    CancelsTell(planned, front, op);
    forall id
      ensures id in Apply(Run(planned, front), op).0.tokens <==> id in planned && CommittedIn(front + [op], id)
    {
      TokensTell(planned, front, op, id);
    }
    forall id
      ensures id in Apply(Run(planned, front), op).0.entered <==> id in planned && EnteredIn(planned, front + [op], id)
    {
      EntriesTell(planned, front, op, id);
    }
  }

  lemma {:induction false} RunTells(planned: seq<string>, ops: seq<Op>)
    ensures Tells(planned, ops, Run(planned, ops))
  {
    if ops != [] {
      RunTells(planned, ops[..|ops| - 1]);
      StepTells(planned, ops[..|ops| - 1], ops[|ops| - 1]);
      assert ops == ops[..|ops| - 1] + [ops[|ops| - 1]];
    }
  }

  /**
    Over every run, what the next operation answers, told from the operations before it. A call commits while nothing
    has failed and it is planned; it enters the adapter once a release has been answered, whatever failed since.
   */
  lemma AnswerIs(planned: seq<string>, ops: seq<Op>, op: Op)
    ensures Apply(Run(planned, ops), op).1 ==
              if op.CommitToken? then
                (if GlobalFail in ops then Some("PROTOCOL_CONTROL_FAILED")
                 else if op.id !in planned then Some("UNPLANNED_REQUEST_ID")
                 else None)
              else if op.Release? then
                (if ReadyAfter(planned, ops) then None else Some("BURST_BARRIER_NOT_READY"))
              else if op.EnterAdapter? then
                (if op.id in planned && ReleasedIn(planned, ops) then None else Some("BURST_DISPATCH_NOT_RELEASED"))
              else None
  {
    RunTells(planned, ops);
    if op.Release? {
      ReleaseAnswer(planned, ops, Run(planned, ops));
    }
  }

  class BurstBarrier {
    const planned: seq<string>
    var control: Control
    var tokens: set<string>
    var released: set<string>
    var canceled: set<string>
    var entered: set<string>

    constructor (planned: seq<string>)
      ensures Contents() == New(planned)
    {
      this.planned := planned;
      control, tokens, released, canceled, entered := Active, {}, {}, {}, {};
    }

    function Contents(): Barrier
      reads this
    {
      Barrier(planned, control, tokens, released, canceled, entered)
    }

    method Commit(id: string) returns (error: Option<string>)
      modifies this
      ensures (Contents(), error) == Apply(old(Contents()), CommitToken(id))
    {
      if control.Failing? { return Some("PROTOCOL_CONTROL_FAILED"); }
      if id !in planned { return Some("UNPLANNED_REQUEST_ID"); }
      if id in tokens {
        assert tokens + {id} == tokens;
        return None;
      }
      tokens := tokens + {id};
      return None;
    }

    method ReleaseAll() returns (error: Option<string>)
      modifies this
      ensures (Contents(), error) == Apply(old(Contents()), Release)
    {
      if control.Failing? || |tokens| != |planned| { return Some("BURST_BARRIER_NOT_READY"); }
      for i := 0 to |planned|
        invariant released == old(released) + Planned(planned[..i])
        invariant control == old(control) && tokens == old(tokens) && canceled == old(canceled)
                  && entered == old(entered)
      {
        assert planned[..i + 1] == planned[..i] + [planned[i]];
        released := released + {planned[i]};
      }
      assert planned[..|planned|] == planned;
      return None;
    }

    method FailAll()
      modifies this
      ensures Contents() == Apply(old(Contents()), GlobalFail).0
    {
      if control.Failing? { return; }
      control := Failing;
      canceled := canceled + set id | id in tokens && id !in released;
      assert canceled == old(canceled) + (tokens - released);
    }

    method Enter(id: string) returns (error: Option<string>)
      modifies this
      ensures (Contents(), error) == Apply(old(Contents()), EnterAdapter(id))
    {
      if id !in released || id in canceled { return Some("BURST_DISPATCH_NOT_RELEASED"); }
      entered := entered + {id};
      return None;
    }
  }
}
