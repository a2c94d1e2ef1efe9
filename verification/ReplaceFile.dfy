/**
  Atomic replacement of a JSON artifact: write a temporary file, rename it over the path. A guarded writer holds
  the write lock and refuses to replace a terminal artifact; an unguarded one does neither.
 */
module ReplaceFile {
  import opened Results

  const ATTEMPTS: nat := 500

  /** What a reader finds: a document with its phase, or bytes whose phase cannot be read. */
  datatype Content = Document(phase: string, body: string) | Unreadable(bytes: string)

  predicate Terminal(c: Content) {
    c.Document? && (c.phase == "complete" || c.phase == "incomplete")
  }

  /** The next filesystem call; the error, if any, is thrown after the lock is removed. */
  datatype Phase =
    | TakeLock(tried: nat)
    | Read
    | Stage
    | Rename
    | Sync
    | Unlock(error: Option<string>)
    | Done
    | Failed(code: string)
    | Crashed

  datatype Writer = Writer(value: Content, guarded: bool, phase: Phase)

  datatype State = State(writers: map<nat, Writer>, lock: Option<nat>, content: Option<Content>, history: seq<Content>)

  datatype Event = Advance(p: nat) | Crash(p: nat) | Break(p: nat)

  function Move(s: State, p: nat, phase: Phase): State
    requires p in s.writers
  {
    s.(writers := s.writers[p := s.writers[p].(phase := phase)])
  }

  /** The end of the replacement: a guarded writer still has its lock to remove. */
  function Finish(s: State, p: nat, error: Option<string>): State
    requires p in s.writers
  {
    if s.writers[p].guarded then Move(s, p, Unlock(error))
    else Move(s, p, if error.None? then Done else Failed(error.value))
  }

  function Call(s: State, p: nat): State
    requires p in s.writers
  {
    var w := s.writers[p];
    match w.phase
    case TakeLock(tried) =>
      if s.lock.None? then Move(s.(lock := Some(p)), p, Read)
      else if tried + 1 >= ATTEMPTS then Move(s, p, Failed("EVIDENCE_ARTIFACT_WRITE_LOCKED"))
      else Move(s, p, TakeLock(tried + 1))
    case Read =>
      if s.content.None? then Move(s, p, Stage)
      else if Terminal(s.content.value) then Finish(s, p, Some("EVIDENCE_TERMINAL_ARTIFACT_IMMUTABLE"))
      else if s.content.value.Unreadable? then Finish(s, p, Some("SyntaxError"))
      else Move(s, p, Stage)
    case Stage => Move(s, p, Rename)
    case Rename => Move(s.(content := Some(w.value), history := s.history + [w.value]), p, Sync)
    case Sync => Finish(s, p, None)
    case Unlock(error) => Move(s.(lock := None), p, if error.None? then Done else Failed(error.value))
    case _ => s
  }

  /**
    Any call can also throw. Before the rename nothing has been placed; after it, while permissions and directory
    are being synced, the value stays. If closing or removing the lock throws, the lock stays.
   */
  function Apply(s: State, e: Event): State {
    if e.p !in s.writers then s
    else
      var phase := s.writers[e.p].phase;
      match e
      case Advance(p) => Call(s, p)
      case Break(p) =>
        if phase.TakeLock? || phase.Unlock? then Move(s, p, Failed("EIO"))
        else if phase.Read? || phase.Stage? || phase.Rename? || phase.Sync? then Finish(s, p, Some("EIO"))
        else s
      case Crash(p) => if phase.Done? || phase.Failed? then s else Move(s, p, Crashed)
  }

  function Run(s: State, events: seq<Event>): State {
    if events == [] then s else Apply(Run(s, events[..|events| - 1]), events[|events| - 1])
  }

  /** Writers that have not started: guarded ones at the lock, others at their temporary file. */
  function Start(value: Content, guarded: bool): Writer {
    Writer(value, guarded, if guarded then TakeLock(0) else Stage)
  }

  function Initial(values: map<nat, (Content, bool)>, found: Option<Content>): State {
    State(map p | p in values :: Start(values[p].0, values[p].1), None, found,
          if found.Some? then [found.value] else [])
  }

  /** A guarded writer holds the lock while it works, and a writer past its rename has had its value at the path. */
  predicate WriterInv(s: State, p: nat)
    requires p in s.writers
  {
    var w := s.writers[p];
    && (w.guarded && (w.phase.Read? || w.phase.Stage? || w.phase.Rename? || w.phase.Sync? || w.phase.Unlock?) ==>
          s.lock == Some(p))
    && (w.phase.TakeLock? ==> w.phase.tried < ATTEMPTS)
    && (!w.guarded ==> !w.phase.TakeLock? && !w.phase.Read? && !w.phase.Unlock?)
    && (w.phase.Sync? || w.phase.Done? || w.phase == Unlock(None) ==> w.value in s.history)
  }

  ghost predicate Inv(s: State) {
    && (forall p {:trigger WriterInv(s, p)} :: p in s.writers ==> WriterInv(s, p))
    && s.content == (if s.history == [] then None else Some(s.history[|s.history| - 1]))
  }

  /** A guarded writer past its check does not meet a terminal artifact, unless an unguarded one put it there. */
  predicate Checked(s: State, p: nat)
    requires p in s.writers
  {
    s.writers[p].guarded && (s.writers[p].phase.Stage? || s.writers[p].phase.Rename?) ==>
      s.content.None? || (s.content.value.Document? && !Terminal(s.content.value))
  }

  ghost predicate GuardedInv(s: State) {
    && Inv(s)
    && forall p {:trigger Checked(s, p)} :: p in s.writers ==> s.writers[p].guarded && Checked(s, p)
  }

  /** No unguarded writer is going to change a terminal artifact `kept`. */
  ghost predicate Harmless(s: State, kept: Content) {
    forall p :: p in s.writers && !s.writers[p].guarded ==> s.writers[p].value == kept
  }

  /** A step places at most one value, and only a writer about to rename places it. */
  lemma StepHistory(s: State, e: Event)
    requires e.p in s.writers
    ensures var t := Apply(s, e);
            && t.writers.Keys == s.writers.Keys
            && (forall p :: p in s.writers ==>
                  t.writers[p].guarded == s.writers[p].guarded && t.writers[p].value == s.writers[p].value)
            && (forall p :: p in s.writers && p != e.p ==> t.writers[p] == s.writers[p])
            && (if e.Advance? && s.writers[e.p].phase.Rename?
                then t.content == Some(s.writers[e.p].value) && t.history == s.history + [s.writers[e.p].value]
                else t.content == s.content && t.history == s.history)
  {
    if e.Advance? {
      CallHistory(s, e.p);
    }
  }

  lemma CallHistory(s: State, p: nat)
    requires p in s.writers
    ensures var t := Call(s, p);
            && (exists phase :: t.writers == s.writers[p := s.writers[p].(phase := phase)])
            && (if s.writers[p].phase.Rename?
                then t.content == Some(s.writers[p].value) && t.history == s.history + [s.writers[p].value]
                else t.content == s.content && t.history == s.history)
  {
    var t := Call(s, p);
    assert p in t.writers && t.writers == s.writers[p := s.writers[p].(phase := t.writers[p].phase)];
  }

  lemma MoverKeepsInv(s: State, e: Event)
    requires e.p in s.writers && WriterInv(s, e.p)
    ensures e.p in Apply(s, e).writers && WriterInv(Apply(s, e), e.p)
  {
  }

  lemma OthersKeepInv(s: State, e: Event, p: nat)
    requires e.p in s.writers && p in s.writers && p != e.p
    requires WriterInv(s, e.p) && WriterInv(s, p)
    ensures p in Apply(s, e).writers && WriterInv(Apply(s, e), p)
  {
  }

  lemma StepKeepsInv(s: State, e: Event)
    requires Inv(s)
    ensures Inv(Apply(s, e)) && s.history <= Apply(s, e).history
  {
    if e.p in s.writers {
      assert WriterInv(s, e.p);
      StepHistory(s, e);
      var t := Apply(s, e);
      forall p | p in t.writers ensures WriterInv(t, p) {
        assert WriterInv(s, p);
        if p == e.p {
          MoverKeepsInv(s, e);
        } else {
          OthersKeepInv(s, e, p);
        }
      }
    }
  }

  lemma {:induction false} RunKeepsInv(values: map<nat, (Content, bool)>, found: Option<Content>, events: seq<Event>)
    ensures var s := Run(Initial(values, found), events);
            && Inv(s) && s.writers.Keys == values.Keys
            && forall p :: p in values ==> s.writers[p].value == values[p].0 && s.writers[p].guarded == values[p].1
  {
    if events == [] {
      forall p | p in values ensures WriterInv(Initial(values, found), p) {
      }
    } else {
      var s, e := Run(Initial(values, found), events[..|events| - 1]), events[|events| - 1];
      RunKeepsInv(values, found, events[..|events| - 1]);
      StepKeepsInv(s, e);
      if e.p in s.writers {
        StepHistory(s, e);
      }
    }
  }

  // ----- guarded writers only -----

  ghost predicate AllGuarded(values: map<nat, (Content, bool)>) {
    forall p :: p in values ==> values[p].1
  }

  lemma StepKeepsGuarded(s: State, e: Event)
    requires GuardedInv(s)
    ensures GuardedInv(Apply(s, e))
    ensures s.content.Some? && (Terminal(s.content.value) || s.content.value.Unreadable?) ==>
              Apply(s, e).history == s.history
  {
    StepKeepsInv(s, e);
    if e.p in s.writers {
      StepHistory(s, e);
      assert WriterInv(s, e.p) && Checked(s, e.p);
      var t := Apply(s, e);
      forall p | p in t.writers ensures t.writers[p].guarded && Checked(t, p) {
        assert WriterInv(s, p) && Checked(s, p);
        if p == e.p {
          MoverStaysChecked(s, e);
        }
      }
    }
  }

  lemma MoverStaysChecked(s: State, e: Event)
    requires e.p in s.writers && s.writers[e.p].guarded && Checked(s, e.p)
    ensures e.p in Apply(s, e).writers && Checked(Apply(s, e), e.p)
  {
  }

  lemma {:induction false} RunKeepsGuarded(values: map<nat, (Content, bool)>, found: Option<Content>,
                                           events: seq<Event>)
    requires AllGuarded(values)
    ensures GuardedInv(Run(Initial(values, found), events))
  {
    if events == [] {
      RunKeepsInv(values, found, events);
      forall p | p in values
        ensures Initial(values, found).writers[p].guarded && Checked(Initial(values, found), p)
      {
      }
    } else {
      RunKeepsGuarded(values, found, events[..|events| - 1]);
      StepKeepsGuarded(Run(Initial(values, found), events[..|events| - 1]), events[|events| - 1]);
    }
  }

  /** With guarded writers only, over every interleaving, crash and error: nothing ever follows a terminal artifact. */
  lemma {:induction false} NothingFollowsTerminal(values: map<nat, (Content, bool)>, found: Option<Content>,
                                                  events: seq<Event>, i: nat)
    requires AllGuarded(values) && i + 1 < |Run(Initial(values, found), events).history|
    ensures var h := Run(Initial(values, found), events).history;
            h[i].Document? && h[i].phase != "complete" && h[i].phase != "incomplete"
  {
    if events != [] {
      var s, e := Run(Initial(values, found), events[..|events| - 1]), events[|events| - 1];
      RunKeepsGuarded(values, found, events[..|events| - 1]);
      StepKeepsGuarded(s, e);
      if i + 1 < |s.history| {
        NothingFollowsTerminal(values, found, events[..|events| - 1], i);
      }
      AddsAtMostOne(s, e);
    }
  }

  lemma AddsAtMostOne(s: State, e: Event)
    ensures s.history <= Apply(s, e).history && |Apply(s, e).history| <= |s.history| + 1
  {
    if e.p in s.writers {
      StepHistory(s, e);
    }
  }

  // ----- any mix of writers -----

  /** A writer that returns without an error, guarded or not, has had its value at the path. */
  lemma CompletedWasPlaced(values: map<nat, (Content, bool)>, found: Option<Content>, events: seq<Event>, p: nat)
    requires p in values && p in Run(Initial(values, found), events).writers
    requires Run(Initial(values, found), events).writers[p].phase.Done?
    ensures values[p].0 in Run(Initial(values, found), events).history
  {
    RunKeepsInv(values, found, events);
    assert WriterInv(Run(Initial(values, found), events), p);
  }

  /** The lock's owner crashed, or could not remove it. */
  predicate Orphaned(s: State, p: nat) {
    s.lock == Some(p) && p in s.writers && (s.writers[p].phase.Crashed? || s.writers[p].phase.Failed?)
  }

  /** An unguarded writer writes this. */
  ghost predicate Unguarded(values: map<nat, (Content, bool)>, c: Content) {
    exists q :: q in values && !values[q].1 && values[q].0 == c
  }

  lemma OrphanedStep(s: State, e: Event, p: nat)
    requires Inv(s) && Orphaned(s, p)
    ensures Orphaned(Apply(s, e), p)
    ensures Apply(s, e).history == s.history ||
            (e.p in s.writers && !s.writers[e.p].guarded && Apply(s, e).history == s.history + [s.writers[e.p].value])
  {
    if e.p in s.writers {
      assert WriterInv(s, e.p);
      StepHistory(s, e);
    }
  }

  /** Once the lock is orphaned, no guarded writer places anything in any continuation: only unguarded ones do. */
  lemma {:induction false} OrphanLockFreezes(values: map<nat, (Content, bool)>, found: Option<Content>,
                                             events: seq<Event>, more: seq<Event>, p: nat)
    requires Orphaned(Run(Initial(values, found), events), p)
    ensures var s, t := Run(Initial(values, found), events), Run(Initial(values, found), events + more);
            && Orphaned(t, p) && s.history <= t.history
            && forall i :: |s.history| <= i < |t.history| ==> Unguarded(values, t.history[i])
  {
    if more == [] {
      assert events + more == events;
    } else {
      var front, e := more[..|more| - 1], more[|more| - 1];
      assert (events + more)[..|events + more| - 1] == events + front;
      var s := Run(Initial(values, found), events + front);
      OrphanLockFreezes(values, found, events, front, p);
      RunKeepsInv(values, found, events + front);
      OrphanedStep(s, e, p);
    }
  }

  // ----- mixing guarded and unguarded writers -----

  ghost predicate KeptInv(s: State, kept: Content) {
    && s.content == Some(kept)
    && Harmless(s, kept)
    && (forall p :: p in s.writers && s.writers[p].guarded ==>
          !s.writers[p].phase.Stage? && !s.writers[p].phase.Rename?)
  }

  lemma {:induction false} HarmlessKeeps(values: map<nat, (Content, bool)>, kept: Content, events: seq<Event>)
    requires Terminal(kept) && forall p :: p in values && !values[p].1 ==> values[p].0 == kept
    ensures KeptInv(Run(Initial(values, Some(kept)), events), kept)
  {
    if events != [] {
      HarmlessKeeps(values, kept, events[..|events| - 1]);
      var s, e := Run(Initial(values, Some(kept)), events[..|events| - 1]), events[|events| - 1];
      if e.p in s.writers {
        assert s.writers[e.p].guarded || s.writers[e.p].value == kept;
      }
    }
  }

  lemma RunOneMore(s: State, events: seq<Event>, e: Event)
    ensures Run(s, events + [e]) == Apply(Run(s, events), e)
  {
    assert (events + [e])[..|events + [e]| - 1] == events;
  }

  /** A terminal artifact survives every run exactly when each unguarded writer would write the same artifact. */
  lemma TerminalSurvivesIff(values: map<nat, (Content, bool)>, kept: Content)
    requires Terminal(kept)
    ensures (forall events :: Run(Initial(values, Some(kept)), events).content == Some(kept))
            <==> (forall p :: p in values && !values[p].1 ==> values[p].0 == kept)
  {
    if forall p :: p in values && !values[p].1 ==> values[p].0 == kept {
      forall events ensures Run(Initial(values, Some(kept)), events).content == Some(kept) {
        HarmlessKeeps(values, kept, events);
      }
    } else {
      var p :| p in values && !values[p].1 && values[p].0 != kept;
      var s := Initial(values, Some(kept));
      RunOneMore(s, [], Advance(p));
      RunOneMore(s, [] + [Advance(p)], Advance(p));
      var staged := Call(s, p);
      assert s.writers[p] == Writer(values[p].0, false, Stage);
      assert staged.writers[p] == Writer(values[p].0, false, Rename);
      assert Run(s, [] + [Advance(p)] + [Advance(p)]) == Call(staged, p);
      assert Call(staged, p).content == Some(values[p].0);
    }
  }

  // ----- one writer -----

  /** The first `n` calls of one writer. */
  function Calls(p: nat, n: nat): seq<Event> {
    if n == 0 then [] else Calls(p, n - 1) + [Advance(p)]
  }

  lemma OneMoreCall(s: State, p: nat, n: nat)
    ensures Run(s, Calls(p, n + 1)) == Apply(Run(s, Calls(p, n)), Advance(p))
  {
    RunOneMore(s, Calls(p, n), Advance(p));
  }

  /** While another holds the lock, a guarded writer tries five hundred times and then gives up. */
  lemma {:induction false} GivesUpAfter500(s: State, p: nat, n: nat)
    requires p in s.writers && s.writers[p].phase == TakeLock(0) && s.lock.Some?
    ensures var t := Run(s, Calls(p, n));
            && t.writers.Keys == s.writers.Keys && t.lock == s.lock && t.content == s.content
            && t.writers[p].phase == if n < 500 then TakeLock(n) else Failed("EVIDENCE_ARTIFACT_WRITE_LOCKED")
  {
    if n > 0 {
      GivesUpAfter500(s, p, n - 1);
      OneMoreCall(s, p, n - 1);
    }
  }

  predicate At(s: State, value: Content, phase: Phase, lock: Option<nat>, content: Option<Content>) {
    0 in s.writers && s.writers[0] == Writer(value, true, phase) && s.lock == lock && s.content == content
  }

  /** What stops a guarded writer. */
  function Refusal(found: Option<Content>): Option<string> {
    match found
    case Some(Document(phase, _)) =>
      if phase == "complete" || phase == "incomplete" then Some("EVIDENCE_TERMINAL_ARTIFACT_IMMUTABLE") else None
    case Some(Unreadable(_)) => Some("SyntaxError")
    case None => None
  }

  /**
    A guarded writer on its own replaces an absent artifact, and any document whose phase is neither "complete" nor
    "incomplete", in six calls. It refuses every other content and leaves it. Either way it removes the lock.
   */
  lemma LoneWriterAnswers(value: Content, found: Option<Content>)
    ensures var t := Run(Initial(map[0 := (value, true)], found), Calls(0, 6));
            if Refusal(found).Some? then At(t, value, Failed(Refusal(found).value), None, found)
            else At(t, value, Done, None, Some(value))
  {
    var s := Initial(map[0 := (value, true)], found);
    OneMoreCall(s, 0, 0);
    OneMoreCall(s, 0, 1);
    OneMoreCall(s, 0, 2);
    OneMoreCall(s, 0, 3);
    OneMoreCall(s, 0, 4);
    OneMoreCall(s, 0, 5);
    WriterSteps(s, Run(s, Calls(0, 1)), Run(s, Calls(0, 2)), Run(s, Calls(0, 3)), value, found);
    WriterFinishes(Run(s, Calls(0, 3)), Run(s, Calls(0, 4)), Run(s, Calls(0, 5)), Run(s, Calls(0, 6)), value, found);
  }

  lemma WriterSteps(s: State, one: State, two: State, three: State, value: Content, found: Option<Content>)
    requires At(s, value, TakeLock(0), None, found)
    requires one == Apply(s, Advance(0)) && two == Apply(one, Advance(0)) && three == Apply(two, Advance(0))
    ensures if Refusal(found).Some? then At(three, value, Failed(Refusal(found).value), None, found)
            else At(three, value, Rename, Some(0), found)
  {
    assert At(one, value, Read, Some(0), found);
    assert At(two, value, if Refusal(found).Some? then Unlock(Refusal(found)) else Stage, Some(0), found);
  }

  lemma WriterFinishes(three: State, four: State, five: State, six: State, value: Content, found: Option<Content>)
    requires if Refusal(found).Some? then At(three, value, Failed(Refusal(found).value), None, found)
             else At(three, value, Rename, Some(0), found)
    requires four == Apply(three, Advance(0)) && five == Apply(four, Advance(0)) && six == Apply(five, Advance(0))
    ensures if Refusal(found).Some? then At(six, value, Failed(Refusal(found).value), None, found)
            else At(six, value, Done, None, Some(value))
  {
    if Refusal(found).None? {
      assert At(four, value, Sync, Some(0), Some(value));
      assert At(five, value, Unlock(None), Some(0), Some(value));
    } else {
      assert four == three;
    }
  }
}
