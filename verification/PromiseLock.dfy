/**
  The in-process bootstrap lock: per key a chain of promises. A caller waits for the promise found in the map,
  puts one in its place that also waits for the caller itself, and removes it on the way out if it is still the
  latest. Callers interleave at their awaits, and their operations succeed or fail alike.
 */
module PromiseLock {
  import opened Results

  /** Waiting for the previous promise; past the wait; left, by return or by throw. */
  datatype Phase = Waiting | Inside | Left

  /** `previous` is the caller whose queued promise was found in the map. */
  datatype Caller = Caller(key: string, previous: Option<nat>, phase: Phase)

  /** Callers in the order of arrival; the map holds, per key, the caller whose queued promise it stores. */
  datatype State = State(callers: seq<Caller>, locks: map<string, nat>)

  datatype Step = Arrive(key: string) | Proceed(i: nat) | Leave(i: nat)

  const EMPTY: State := State([], map[])

  /** The promise a caller queued resolves when the caller has left and the promise it waited for has resolved. */
  predicate Resolved(s: State, i: nat)
    decreases i
  {
    && i < |s.callers| && s.callers[i].phase.Left?
    && (s.callers[i].previous.Some? ==> s.callers[i].previous.value < i && Resolved(s, s.callers[i].previous.value))
  }

  /** A caller can go on once the promise it awaits has resolved. */
  predicate CanProceed(s: State, i: nat) {
    && i < |s.callers| && s.callers[i].phase.Waiting?
    && (s.callers[i].previous.Some? ==> Resolved(s, s.callers[i].previous.value))
  }

  predicate CanLeave(s: State, i: nat) {
    i < |s.callers| && s.callers[i].phase.Inside?
  }

  predicate Enabled(s: State, step: Step) {
    match step
    case Arrive(_) => true
    case Proceed(i) => CanProceed(s, i)
    case Leave(i) => CanLeave(s, i)
  }

  function SetPhase(s: State, i: nat, phase: Phase): State
    requires i < |s.callers|
  {
    s.(callers := s.callers[i := s.callers[i].(phase := phase)])
  }

  function Lookup(s: State, key: string): Option<nat> {
    if key in s.locks then Some(s.locks[key]) else None
  }

  /** A step that cannot be taken changes nothing. */
  function Apply(s: State, step: Step): State {
    match step
    case Arrive(key) =>
      State(s.callers + [Caller(key, Lookup(s, key), Waiting)], s.locks[key := |s.callers|])
    case Proceed(i) =>
      if CanProceed(s, i) then SetPhase(s, i, Inside) else s
    case Leave(i) =>
      if !CanLeave(s, i) then s
      else
        var t := SetPhase(s, i, Left);
        var key := s.callers[i].key;
        if Lookup(s, key) == Some(i) then t.(locks := s.locks - {key}) else t
  }

  function Run(steps: seq<Step>): State {
    if steps == [] then EMPTY else Apply(Run(steps[..|steps| - 1]), steps[|steps| - 1])
  }

  // ----- the invariant -----

  predicate SameKey(s: State, i: nat, j: nat) {
    i < |s.callers| && j < |s.callers| && s.callers[i].key == s.callers[j].key
  }

  /** Every earlier caller of the same key has left. */
  ghost predicate Cleared(s: State, i: nat)
    requires i < |s.callers|
  {
    forall j: nat {:trigger SameKey(s, j, i)} :: j < i && SameKey(s, j, i) ==> s.callers[j].phase.Left?
  }

  /** The caller waits for the latest earlier caller of its key, or all earlier ones had left when it came. */
  ghost predicate Chained(s: State, i: nat)
    requires i < |s.callers|
  {
    match s.callers[i].previous
    case None => Cleared(s, i)
    case Some(p) => p < i && SameKey(s, p, i) && forall j: nat {:trigger SameKey(s, j, i)} :: p < j < i ==>
        !SameKey(s, j, i)
  }

  ghost predicate Latest(s: State, key: string, i: nat) {
    && i < |s.callers| && s.callers[i].key == key
    && forall j :: i < j < |s.callers| ==> s.callers[j].key != key
  }

  ghost predicate Inv(s: State) {
    && (forall i: nat {:trigger Chained(s, i)} :: i < |s.callers| ==> Chained(s, i))
    && (forall i: nat {:trigger Cleared(s, i)} :: i < |s.callers| && !s.callers[i].phase.Waiting? ==> Cleared(s, i))
    && (forall key :: key in s.locks ==> Latest(s, key, s.locks[key]) && !s.callers[s.locks[key]].phase.Left?)
    && (forall i :: 0 <= i < |s.callers| && s.callers[i].key !in s.locks ==> s.callers[i].phase.Left?)
  }

  /** The awaited promise has resolved exactly when every earlier caller of the key has left. */
  lemma {:induction false} ResolvedIff(s: State, i: nat)
    requires Inv(s) && i < |s.callers|
    ensures Resolved(s, i) <==> s.callers[i].phase.Left?
    decreases i
  {
    assert Chained(s, i);
    if s.callers[i].phase.Left? {
      assert Cleared(s, i);
      match s.callers[i].previous
      case None =>
      case Some(p) =>
        assert SameKey(s, p, i);
        ResolvedIff(s, p);
    }
  }

  lemma ProceedsIffCleared(s: State, i: nat)
    requires Inv(s) && i < |s.callers| && s.callers[i].phase.Waiting?
    ensures CanProceed(s, i) <==> Cleared(s, i)
  {
    assert Chained(s, i);
    match s.callers[i].previous
    case None =>
    case Some(p) =>
      ResolvedIff(s, p);
      assert SameKey(s, p, i);
      if s.callers[p].phase.Left? {
        assert Cleared(s, p);
        forall j: nat | j < i && SameKey(s, j, i) ensures s.callers[j].phase.Left? {
          if j < p {
            assert SameKey(s, j, p);
          }
        }
      }
  }

  lemma ArriveKeeps(s: State, key: string)
    requires Inv(s)
    ensures Inv(Apply(s, Arrive(key)))
  {
    var t := Apply(s, Arrive(key));
    var n := |s.callers|;
    forall i: nat | i < |t.callers| ensures Chained(t, i) {
      if i < n {
        assert Chained(s, i);
        forall j: nat | j < i ensures SameKey(t, j, i) == SameKey(s, j, i) {
        }
      } else if key in s.locks {
        assert Latest(s, key, s.locks[key]);
      }
    }
    forall i: nat | i < |t.callers| && !t.callers[i].phase.Waiting? ensures Cleared(t, i) {
      assert Cleared(s, i);
      forall j: nat | j < i && SameKey(t, j, i) ensures t.callers[j].phase.Left? {
        assert SameKey(s, j, i);
      }
    }
    forall k | k in t.locks ensures Latest(t, k, t.locks[k]) && !t.callers[t.locks[k]].phase.Left? {
      if k != key {
        assert Latest(s, k, s.locks[k]);
      }
    }
  }

  /** Changing a phase towards the end keeps what depends only on keys and on who has left. */
  lemma PhaseKeepsChains(s: State, i: nat, phase: Phase)
    requires Inv(s) && i < |s.callers| && !s.callers[i].phase.Left?
    ensures var t := SetPhase(s, i, phase);
            && (forall k: nat {:trigger Chained(t, k)} :: k < |t.callers| ==> Chained(t, k))
            && (forall k: nat {:trigger Cleared(t, k)} :: k < |t.callers| && Cleared(s, k) ==> Cleared(t, k))
  {
    var t := SetPhase(s, i, phase);
    forall k: nat | k < |t.callers| && Cleared(s, k) ensures Cleared(t, k) {
      forall j: nat | j < k && SameKey(t, j, k) ensures t.callers[j].phase.Left? {
        assert SameKey(s, j, k);
      }
    }
    forall k: nat | k < |t.callers| ensures Chained(t, k) {
      assert Chained(s, k);
      forall j: nat ensures SameKey(t, j, k) == SameKey(s, j, k) {
      }
    }
  }

  lemma ProceedKeeps(s: State, i: nat)
    requires Inv(s) && CanProceed(s, i)
    ensures Inv(Apply(s, Proceed(i)))
  {
    var t := Apply(s, Proceed(i));
    ProceedsIffCleared(s, i);
    PhaseKeepsChains(s, i, Inside);
    forall k: nat | k < |t.callers| && !t.callers[k].phase.Waiting? ensures Cleared(t, k) {
      assert Cleared(s, k);
    }
    forall key | key in t.locks ensures Latest(t, key, t.locks[key]) && !t.callers[t.locks[key]].phase.Left? {
      assert Latest(s, key, s.locks[key]);
    }
  }

  lemma LeaveKeeps(s: State, i: nat)
    requires Inv(s) && CanLeave(s, i)
    ensures Inv(Apply(s, Leave(i)))
  {
    var t := Apply(s, Leave(i));
    var key := s.callers[i].key;
    var u := SetPhase(s, i, Left);
    PhaseKeepsChains(s, i, Left);
    assert Cleared(s, i);
    assert key in s.locks && Latest(s, key, s.locks[key]);
    forall k: nat | k < |t.callers| ensures Chained(t, k) {
      assert Chained(u, k);
      SameCallers(u, t, k);
    }
    forall k: nat | k < |t.callers| && !t.callers[k].phase.Waiting? ensures Cleared(t, k) {
      assert Cleared(s, k);
      assert Cleared(u, k);
      SameCallers(u, t, k);
    }
    forall other | other in t.locks ensures Latest(t, other, t.locks[other]) && !t.callers[t.locks[other]].phase.Left? {
      assert Latest(s, other, s.locks[other]);
    }
    forall k: nat | k < |t.callers| && t.callers[k].key !in t.locks ensures t.callers[k].phase.Left? {
      if k != i && t.callers[k].key == key {
        assert s.locks[key] == i && SameKey(s, k, i);
      }
    }
  }

  lemma SameCallers(u: State, t: State, k: nat)
    requires u.callers == t.callers && k < |t.callers|
    ensures Chained(u, k) <==> Chained(t, k)
    ensures Cleared(u, k) <==> Cleared(t, k)
  {
    forall j: nat ensures SameKey(u, j, k) == SameKey(t, j, k) {
    }
  }

  lemma {:induction false} RunKeepsInv(steps: seq<Step>)
    ensures Inv(Run(steps))
  {
    if steps != [] {
      var s, step := Run(steps[..|steps| - 1]), steps[|steps| - 1];
      RunKeepsInv(steps[..|steps| - 1]);
      match step
      case Arrive(key) => ArriveKeeps(s, key);
      case Proceed(i) => if CanProceed(s, i) { ProceedKeeps(s, i); }
      case Leave(i) => if CanLeave(s, i) { LeaveKeeps(s, i); }
    }
  }

  // ----- what the lock promises -----

  /** At most one caller per key is past the wait at any time. */
  lemma MutualExclusion(steps: seq<Step>, i: nat, j: nat)
    requires SameKey(Run(steps), i, j) && i != j
    ensures !(Run(steps).callers[i].phase.Inside? && Run(steps).callers[j].phase.Inside?)
  {
    var s := Run(steps);
    RunKeepsInv(steps);
    if i < j && s.callers[j].phase.Inside? {
      assert Cleared(s, j);
    }
    if j < i && s.callers[i].phase.Inside? {
      assert Cleared(s, i) && SameKey(s, j, i);
    }
  }

  /** Callers of a key get past the wait in the order in which they arrived, each after the one before has left. */
  lemma ArrivalOrder(steps: seq<Step>, i: nat, j: nat)
    requires SameKey(Run(steps), i, j) && i < j && !Run(steps).callers[j].phase.Waiting?
    ensures Run(steps).callers[i].phase.Left?
  {
    RunKeepsInv(steps);
    assert Cleared(Run(steps), j);
  }

  /** The map has an entry for a key exactly while some caller of the key has not left. */
  lemma EntryIff(steps: seq<Step>, key: string)
    ensures key in Run(steps).locks <==>
              exists i :: 0 <= i < |Run(steps).callers| && Run(steps).callers[i].key == key
                  && !Run(steps).callers[i].phase.Left?
  {
    RunKeepsInv(steps);
    var s := Run(steps);
    if key in s.locks {
      assert Latest(s, key, s.locks[key]);
    }
  }

  // ----- progress -----

  /** The queue position: how many earlier callers of the same key have not left. */
  function Ahead(s: State, i: nat, n: nat): nat
    requires n <= i < |s.callers|
  {
    if n == 0 then 0
    else Ahead(s, i, n - 1) + (if SameKey(s, n - 1, i) && !s.callers[n - 1].phase.Left? then 1 else 0)
  }

  lemma {:induction false} AheadZero(s: State, i: nat, n: nat)
    requires n <= i < |s.callers|
    ensures Ahead(s, i, n) == 0 <==> forall j: nat {:trigger SameKey(s, j, i)} :: j < n && SameKey(s, j, i) ==>
            s.callers[j].phase.Left?
  {
    if n > 0 {
      AheadZero(s, i, n - 1);
      assert SameKey(s, n - 1, i) || !SameKey(s, n - 1, i);
    }
  }

  /** A waiting caller can go on exactly when it is first in its queue. */
  lemma ProceedsIffFirst(steps: seq<Step>, i: nat)
    requires i < |Run(steps).callers| && Run(steps).callers[i].phase.Waiting?
    ensures CanProceed(Run(steps), i) <==> Ahead(Run(steps), i, i) == 0
  {
    RunKeepsInv(steps);
    ProceedsIffCleared(Run(steps), i);
    AheadZero(Run(steps), i, i);
  }

  lemma {:induction false} AheadStep(s: State, step: Step, i: nat, n: nat)
    requires n <= i < |s.callers|
    ensures i < |Apply(s, step).callers|
    ensures var leaves := step.Leave? && CanLeave(s, step.i) && step.i < n && SameKey(s, step.i, i);
            Ahead(Apply(s, step), i, n) == Ahead(s, i, n) - if leaves then 1 else 0
  {
    if n > 0 {
      AheadStep(s, step, i, n - 1);
      assert SameKey(Apply(s, step), n - 1, i) == SameKey(s, n - 1, i);
    }
  }

  /** No step moves a caller back, and the caller inside, on leaving, moves every later one of its key up by one. */
  lemma QueueMovesUp(s: State, step: Step, i: nat)
    requires i < |s.callers|
    ensures i < |Apply(s, step).callers| && Ahead(Apply(s, step), i, i) <= Ahead(s, i, i)
    ensures step.Leave? && CanLeave(s, step.i) && step.i < i && SameKey(s, step.i, i) ==>
              Ahead(Apply(s, step), i, i) == Ahead(s, i, i) - 1
  {
    AheadStep(s, step, i, i);
  }

  /** The lock is never stuck: while a caller has not left, some caller of its key can go on or leave. */
  lemma NeverStuck(steps: seq<Step>, i: nat) returns (step: Step)
    requires i < |Run(steps).callers| && !Run(steps).callers[i].phase.Left?
    ensures !step.Arrive? && Enabled(Run(steps), step) && SameKey(Run(steps), step.i, i) && step.i <= i
  {
    var s := Run(steps);
    RunKeepsInv(steps);
    var first: nat := i;
    while exists j: nat :: j < first && SameKey(s, j, first) && !s.callers[j].phase.Left?
      invariant first <= i && SameKey(s, first, i) && !s.callers[first].phase.Left?
      decreases first
    {
      var j: nat :| j < first && SameKey(s, j, first) && !s.callers[j].phase.Left?;
      first := j;
    }
    if s.callers[first].phase.Inside? {
      step := Leave(first);
    } else {
      ProceedsIffCleared(s, first);
      step := Proceed(first);
    }
  }

  /** The phases still ahead of all callers. */
  function Work(callers: seq<Caller>): nat {
    if callers == [] then 0
    else
      Work(callers[..|callers| - 1])
      + match callers[|callers| - 1].phase case Waiting => 2 case Inside => 1 case Left => 0
  }

  lemma {:induction false} WorkShrinks(callers: seq<Caller>, i: nat, c: Caller)
    requires i < |callers|
    requires (callers[i].phase.Waiting? && c.phase.Inside?) || (callers[i].phase.Inside? && c.phase.Left?)
    ensures Work(callers[i := c]) == Work(callers) - 1
  {
    var last := |callers| - 1;
    if i < last {
      WorkShrinks(callers[..last], i, c);
      assert callers[i := c][..last] == callers[..last][i := c];
    } else {
      assert callers[i := c][..last] == callers[..last];
    }
  }

  predicate Finished(s: State) {
    (forall i :: 0 <= i < |s.callers| ==> s.callers[i].phase.Left?) && s.locks == map[]
  }

  /** From every reachable state, the callers can all leave, and then the map is empty. */
  lemma Drains(steps: seq<Step>) returns (more: seq<Step>)
    ensures forall k :: 0 <= k < |more| ==> !more[k].Arrive?
    ensures Finished(Run(steps + more))
  {
    var all := DrainedRun(steps);
    more := all[|steps|..];
    assert steps + more == all;
  }

  lemma {:induction false} DrainedRun(steps: seq<Step>) returns (all: seq<Step>)
    ensures steps <= all && forall k :: |steps| <= k < |all| ==> !all[k].Arrive?
    ensures Finished(Run(all))
    decreases Work(Run(steps).callers)
  {
    if i: nat :| i < |Run(steps).callers| && !Run(steps).callers[i].phase.Left? {
      var step := NeverStuck(steps, i);
      OneMore(steps, step);
      all := DrainedRun(steps + [step]);
      assert all[|steps|] == step;
    } else {
      all := steps;
      AllLeft(steps);
    }
  }

  lemma OneMore(steps: seq<Step>, step: Step)
    requires !step.Arrive? && Enabled(Run(steps), step)
    ensures Run(steps + [step]) == Apply(Run(steps), step)
            && Work(Run(steps + [step]).callers) < Work(Run(steps).callers)
  {
    var s := Run(steps);
    assert (steps + [step])[..|steps|] == steps;
    WorkShrinks(s.callers, step.i, s.callers[step.i].(phase := if step.Proceed? then Inside else Left));
  }

  lemma AllLeft(steps: seq<Step>)
    requires forall i :: 0 <= i < |Run(steps).callers| ==> Run(steps).callers[i].phase.Left?
    ensures Run(steps).locks == map[]
  {
    forall key ensures key !in Run(steps).locks {
      EntryIff(steps, key);
    }
  }

  // ----- the module-level map -----

  class BootstrapLock {
    var callers: seq<Caller>
    var localLocks: map<string, nat>

    constructor ()
      ensures Contents() == EMPTY
    {
      callers, localLocks := [], map[];
    }

    function Contents(): State
      reads this
    {
      State(callers, localLocks)
    }

    /** The synchronous part before the wait: take the promise in the map and put the own queued one there. */
    method Enter(key: string) returns (id: nat)
      modifies this
      ensures id == |old(callers)| && Contents() == Apply(old(Contents()), Arrive(key))
    {
      var previous := if key in localLocks then Some(localLocks[key]) else None;
      id := |callers|;
      callers := callers + [Caller(key, previous, Waiting)];
      localLocks := localLocks[key := id];
    }

    /** The wait is over. */
    method PassWait(id: nat)
      requires CanProceed(Contents(), id)
      modifies this
      ensures Contents() == Apply(old(Contents()), Proceed(id))
    {
      callers := callers[id := callers[id].(phase := Inside)];
    }

    /** The synchronous end of the finally block: release, and remove the map entry if it is still the own one. */
    method Release(id: nat)
      requires CanLeave(Contents(), id)
      modifies this
      ensures Contents() == Apply(old(Contents()), Leave(id))
    {
      var key := callers[id].key;
      callers := callers[id := callers[id].(phase := Left)];
      if key in localLocks && localLocks[key] == id {
        localLocks := localLocks - {key};
      }
    }
  }
}
