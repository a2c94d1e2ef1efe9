/**
  Restart manifests: any number of publishers replace one file under a lock file. Each publisher is a sequence
  of filesystem calls that interleave with the others' and may stop for good at any of them.
 */
module Manifest {
  import opened Results

  /** The four states of a manifest, or another text in their place. */
  datatype RunState = Claimed | AdmissionStarted | AwaitingOutcome | Terminal | Other(text: string)

  datatype Manifest = Manifest(state: RunState, sequence: int, body: string)

  /** What a reader finds at the path: a manifest, or bytes that do not parse as one. */
  datatype Content = Known(manifest: Manifest) | Foreign(bytes: string)

  function Rank(state: RunState): Option<nat> {
    match state
    case Claimed => Some(0)
    case AdmissionStarted => Some(1)
    case AwaitingOutcome => Some(2)
    case Terminal => Some(3)
    case Other(_) => None
  }

  const MAX_SAFE_INTEGER: int := 9_007_199_254_740_991

  predicate Publishable(m: Manifest) {
    1 <= m.sequence <= MAX_SAFE_INTEGER && Rank(m.state).Some?
  }

  /** The next filesystem call; a replacement remembers the content it read. */
  datatype Phase =
    | TakeLock
    | Stage
    | Read
    | Link
    | Reread(seen: Content)
    | Rename(seen: Content)
    | Unlock
    | Done
    | Failed
    | Crashed

  datatype Publisher = Publisher(value: Manifest, phase: Phase)

  /** `lock` names the publisher that created the lock file; `history` lists the successive contents of the path. */
  datatype State = State(publishers: map<nat, Publisher>, lock: Option<nat>, content: Option<Content>,
                         history: seq<Content>)

  function Start(value: Manifest): Publisher {
    Publisher(value, if Publishable(value) then TakeLock else Failed)
  }

  /** Whether `next` may replace the manifest `prior`. An unknown prior state ranks above every state. */
  predicate Succeeds(prior: Manifest, next: Manifest) {
    && !prior.state.Terminal?
    && next.sequence == prior.sequence + 1
    && Rank(next.state).Some? && Rank(prior.state).Some?
    && Rank(next.state).value > Rank(prior.state).value
  }

  predicate MayReplace(seen: Content, next: Manifest) {
    seen.Known? && Succeeds(seen.manifest, next)
  }

  function Move(s: State, p: nat, phase: Phase): State
    requires p in s.publishers
  {
    s.(publishers := s.publishers[p := s.publishers[p].(phase := phase)])
  }

  function Place(s: State, value: Manifest): State {
    s.(content := Some(Known(value)), history := s.history + [Known(value)])
  }

  function Call(s: State, p: nat): State
    requires p in s.publishers
  {
    var value := s.publishers[p].value;
    match s.publishers[p].phase
    case TakeLock => if s.lock.Some? then Move(s, p, Failed) else Move(s.(lock := Some(p)), p, Stage)
    case Stage => Move(s, p, Read)
    case Read =>
      if s.content.None? then Move(s, p, Link)
      else if s.content.value == Known(value) then Move(s, p, Unlock)
      else if MayReplace(s.content.value, value) then Move(s, p, Reread(s.content.value))
      else Move(s, p, Failed)
    case Link => if s.content.Some? then Move(s, p, Failed) else Move(Place(s, value), p, Unlock)
    case Reread(seen) => if s.content == Some(seen) then Move(s, p, Rename(seen)) else Move(s, p, Failed)
    case Rename(_) => Move(Place(s, value), p, Unlock)
    case Unlock => Move(s.(lock := None), p, Done)
    case _ => s
  }

  datatype Event = Advance(p: nat) | Crash(p: nat)

  function Apply(s: State, e: Event): State {
    if e.p !in s.publishers then s
    else if e.Advance? then Call(s, e.p)
    else if s.publishers[e.p].phase.Done? then s
    else Move(s, e.p, Crashed)
  }

  function Run(s: State, events: seq<Event>): State {
    if events == [] then s else Apply(Run(s, events[..|events| - 1]), events[|events| - 1])
  }

  /** The path starts absent, or with whatever an earlier process left there. */
  function Initial(values: map<nat, Manifest>, found: Option<Content>): State {
    State(map p | p in values :: Start(values[p]), None, found, if found.Some? then [found.value] else [])
  }

  predicate Locking(phase: Phase) {
    phase.Stage? || phase.Read? || phase.Link? || phase.Reread? || phase.Rename? || phase.Unlock?
  }

  /** Successive contents are manifests, each a permitted successor of the one before. */
  predicate Chain(history: seq<Content>) {
    forall i :: 0 < i < |history| ==> history[i].Known? && MayReplace(history[i - 1], history[i].manifest)
  }

  predicate PublisherInv(s: State, p: nat)
    requires p in s.publishers
  {
    var x := s.publishers[p];
    && (Locking(x.phase) ==> s.lock == Some(p))
    && (x.phase.Link? ==> s.content.None?)
    && (x.phase.Reread? || x.phase.Rename? ==> s.content == Some(x.phase.seen) && MayReplace(x.phase.seen, x.value))
    && (x.phase.Unlock? || x.phase.Done? ==> Known(x.value) in s.history)
  }

  ghost predicate Inv(s: State) {
    && Chain(s.history)
    && s.content == (if s.history == [] then None else Some(s.history[|s.history| - 1]))
    && (forall p {:trigger PublisherInv(s, p)} :: p in s.publishers ==> PublisherInv(s, p))
  }

  lemma StepKeepsInv(s: State, e: Event)
    requires Inv(s)
    ensures Inv(Apply(s, e))
    ensures s.history <= Apply(s, e).history
  {
    if e.p in s.publishers {
      assert PublisherInv(s, e.p);
      var t := Apply(s, e);
      forall p | p in t.publishers ensures PublisherInv(t, p) {
        assert PublisherInv(s, p);
      }
    }
  }

  lemma InitialInv(values: map<nat, Manifest>, found: Option<Content>)
    ensures Inv(Initial(values, found)) && Initial(values, found).publishers.Keys == values.Keys
    ensures forall p :: p in values ==> Initial(values, found).publishers[p].value == values[p]
  {
    forall p | p in values ensures PublisherInv(Initial(values, found), p) {
    }
  }

  lemma StepKeepsPublishers(s: State, e: Event)
    ensures Apply(s, e).publishers.Keys == s.publishers.Keys
    ensures forall p :: p in s.publishers ==> Apply(s, e).publishers[p].value == s.publishers[p].value
  {
  }

  lemma {:induction false} RunKeepsInv(values: map<nat, Manifest>, found: Option<Content>, events: seq<Event>)
    ensures Inv(Run(Initial(values, found), events))
    ensures Run(Initial(values, found), events).publishers.Keys == values.Keys
    ensures forall p :: p in values ==> Run(Initial(values, found), events).publishers[p].value == values[p]
  {
    InitialInv(values, found);
    if events != [] {
      var s, e := Run(Initial(values, found), events[..|events| - 1]), events[|events| - 1];
      RunKeepsInv(values, found, events[..|events| - 1]);
      StepKeepsPublishers(s, e);
      StepKeepsInv(s, e);
    }
  }

  /** The states a manifest goes through, each later than those before it; none may come twice. */
  predicate Later(next: RunState, prior: RunState) {
    match prior
    case Claimed => next.AdmissionStarted? || next.AwaitingOutcome? || next.Terminal?
    case AdmissionStarted => next.AwaitingOutcome? || next.Terminal?
    case AwaitingOutcome => next.Terminal?
    case _ => false
  }

  /**
    Over every interleaving and crash: successive contents have consecutive sequence numbers and strictly
    later states, so nothing follows a terminal manifest.
   */
  lemma ContentsAdvance(values: map<nat, Manifest>, found: Option<Content>, events: seq<Event>, i: nat)
    requires i + 1 < |Run(Initial(values, found), events).history|
    ensures var h := Run(Initial(values, found), events).history;
            && h[i].Known? && h[i + 1].Known?
            && h[i + 1].manifest.sequence == h[i].manifest.sequence + 1
            && Later(h[i + 1].manifest.state, h[i].manifest.state)
  {
    RunKeepsInv(values, found, events);
    var h := Run(Initial(values, found), events).history;
    assert MayReplace(h[i + 1 - 1], h[i + 1].manifest);
  }

  lemma {:induction false} RanksGrow(history: seq<Content>, i: nat)
    requires Chain(history) && 0 < i < |history|
    ensures history[i].Known? && Rank(history[i].manifest.state).Some? && Rank(history[i].manifest.state).value >= i
  {
    assert MayReplace(history[i - 1], history[i].manifest);
    if i > 1 {
      RanksGrow(history, i - 1);
    }
  }

  /** However many publishers there are, the path takes at most four values. */
  lemma AtMostFourValues(values: map<nat, Manifest>, found: Option<Content>, events: seq<Event>)
    ensures |Run(Initial(values, found), events).history| <= 4
  {
    RunKeepsInv(values, found, events);
    var h := Run(Initial(values, found), events).history;
    if |h| > 4 {
      RanksGrow(h, 4);
    }
  }

  // ----- contents that stay -----

  lemma {:induction false} RunConcat(s: State, xs: seq<Event>, ys: seq<Event>)
    ensures Run(s, xs + ys) == Run(Run(s, xs), ys)
  {
    if ys == [] {
      assert xs + ys == xs;
    } else {
      assert (xs + ys)[..|xs + ys| - 1] == xs + ys[..|ys| - 1];
      RunConcat(s, xs, ys[..|ys| - 1]);
    }
  }

  predicate Final(c: Content) {
    c.Foreign? || c.manifest.state.Terminal?
  }

  lemma {:induction false} FinalRun(s: State, events: seq<Event>)
    requires Inv(s) && s.content.Some? && Final(s.content.value)
    ensures Inv(Run(s, events)) && Run(s, events).content == s.content && Run(s, events).history == s.history
  {
    if events != [] {
      var before, e := Run(s, events[..|events| - 1]), events[|events| - 1];
      FinalRun(s, events[..|events| - 1]);
      StepKeepsInv(before, e);
      if e.p in before.publishers {
        assert PublisherInv(before, e.p);
      }
    }
  }

  /** Once terminal, or once unparseable, the content never changes again, whatever follows. */
  lemma FinalContentStays(values: map<nat, Manifest>, found: Option<Content>, events: seq<Event>, more: seq<Event>)
    requires var s := Run(Initial(values, found), events); s.content.Some? && Final(s.content.value)
    ensures var s, t := Run(Initial(values, found), events), Run(Initial(values, found), events + more);
            t.content == s.content && t.history == s.history
  {
    RunKeepsInv(values, found, events);
    RunConcat(Initial(values, found), events, more);
    FinalRun(Run(Initial(values, found), events), more);
  }

  /** The lock's owner failed or crashed without removing it. */
  predicate Orphaned(s: State, p: nat) {
    s.lock == Some(p) && p in s.publishers && (s.publishers[p].phase.Failed? || s.publishers[p].phase.Crashed?)
  }

  lemma {:induction false} OrphanedRun(s: State, events: seq<Event>, p: nat)
    requires Inv(s) && Orphaned(s, p)
    ensures var t := Run(s, events); Inv(t) && Orphaned(t, p) && t.content == s.content && t.history == s.history
  {
    if events != [] {
      var before, e := Run(s, events[..|events| - 1]), events[|events| - 1];
      OrphanedRun(s, events[..|events| - 1], p);
      StepKeepsInv(before, e);
      if e.p in before.publishers {
        assert PublisherInv(before, e.p);
      }
    }
  }

  /** A publisher that completes has had its manifest at the path: no completed publication is lost. */
  lemma CompletedWasPublished(values: map<nat, Manifest>, found: Option<Content>, events: seq<Event>, p: nat)
    requires p in values
    requires p in Run(Initial(values, found), events).publishers
             && Run(Initial(values, found), events).publishers[p].phase.Done?
    ensures Known(values[p]) in Run(Initial(values, found), events).history
  {
    RunKeepsInv(values, found, events);
    assert PublisherInv(Run(Initial(values, found), events), p);
  }

  /**
    A publisher that fails or crashes while holding the lock leaves it, and the path is frozen in every continuation.
   */
  lemma OrphanLockFreezes(values: map<nat, Manifest>, found: Option<Content>, events: seq<Event>, more: seq<Event>,
                          p: nat)
    requires Orphaned(Run(Initial(values, found), events), p)
    ensures var s, t := Run(Initial(values, found), events), Run(Initial(values, found), events + more);
            Orphaned(t, p) && t.content == s.content && t.history == s.history
  {
    RunKeepsInv(values, found, events);
    RunConcat(Initial(values, found), events, more);
    OrphanedRun(Run(Initial(values, found), events), more, p);
  }

  // ----- one publisher on its own -----

  lemma RunOneMore(s: State, events: seq<Event>, e: Event)
    ensures Run(s, events + [e]) == Apply(Run(s, events), e)
  {
    assert (events + [e])[..|events + [e]| - 1] == events;
  }

  /** The first `n` calls of publisher 0. */
  function Calls(n: nat): seq<Event> {
    if n == 0 then [] else Calls(n - 1) + [Advance(0)]
  }

  lemma OneMoreCall(s: State, n: nat)
    ensures Run(s, Calls(n + 1)) == Apply(Run(s, Calls(n)), Advance(0))
  {
    RunOneMore(s, Calls(n), Advance(0));
  }

  /** What may be found at the path for `value` to be published. */
  predicate Open(value: Manifest, found: Option<Content>) {
    || found.None?
    || found.value == Known(value)
    || (found.value.Known? && Later(value.state, found.value.manifest.state)
        && value.sequence == found.value.manifest.sequence + 1)
  }

  /** Publisher 0 is at `phase`, over this lock and content. */
  predicate At(s: State, value: Manifest, phase: Phase, lock: Option<nat>, content: Option<Content>) {
    0 in s.publishers && s.publishers[0] == Publisher(value, phase) && s.lock == lock && s.content == content
  }

  /** The call a publisher makes, after reading what is at the path. */
  function AfterRead(value: Manifest, found: Option<Content>): Phase {
    if found.None? then Link
    else if found.value == Known(value) then Unlock
    else if MayReplace(found.value, value) then Reread(found.value)
    else Failed
  }

  lemma LoneStart(value: Manifest, found: Option<Content>)
    ensures var s := Initial(map[0 := value], found);
            if Publishable(value) then At(Run(s, Calls(3)), value, AfterRead(value, found), Some(0), found)
            else At(Run(s, Calls(3)), value, Failed, None, found)
  {
    var s := Initial(map[0 := value], found);
    RunOneMore(s, [], Advance(0));
    RunOneMore(s, Calls(1), Advance(0));
    RunOneMore(s, Calls(2), Advance(0));
    assert At(Run(s, Calls(1)), value, if Publishable(value) then Stage else Failed,
              if Publishable(value) then Some(0) else None, found);
    assert At(Run(s, Calls(2)), value, if Publishable(value) then Read else Failed,
              if Publishable(value) then Some(0) else None, found);
  }

  lemma LoneEnd(three: State, four: State, five: State, value: Manifest, found: Option<Content>)
    requires At(three, value, AfterRead(value, found), Some(0), found)
    requires four == Apply(three, Advance(0)) && five == Apply(four, Advance(0))
    ensures match AfterRead(value, found)
            case Failed => At(five, value, Failed, Some(0), found)
            case Reread(_) =>
              && At(five, value, Unlock, Some(0), Some(Known(value)))
              && At(Apply(five, Advance(0)), value, Done, None, Some(Known(value)))
            case Unlock => At(four, value, Done, None, found) && At(five, value, Done, None, found)
            case _ =>
              && At(four, value, Unlock, Some(0), Some(Known(value)))
              && At(five, value, Done, None, Some(Known(value)))
  {
  }

  lemma Stays(s: State, value: Manifest, phase: Phase, lock: Option<nat>, content: Option<Content>)
    requires At(s, value, phase, lock, content) && (phase.Done? || phase.Failed?)
    ensures At(Apply(s, Advance(0)), value, phase, lock, content)
  {
  }

  lemma Finishes(three: State, four: State, five: State, six: State, seven: State, value: Manifest,
                 found: Option<Content>)
    requires four == Apply(three, Advance(0)) && five == Apply(four, Advance(0))
    requires six == Apply(five, Advance(0)) && seven == Apply(six, Advance(0))
    requires if Publishable(value) then At(three, value, AfterRead(value, found), Some(0), found)
             else At(three, value, Failed, None, found)
    ensures if !Publishable(value) then At(seven, value, Failed, None, found)
            else if AfterRead(value, found).Failed? then At(seven, value, Failed, Some(0), found)
            else At(seven, value, Done, None, Some(Known(value)))
  {
    if !Publishable(value) {
      Stays(three, value, Failed, None, found);
      Stays(four, value, Failed, None, found);
      Stays(five, value, Failed, None, found);
      Stays(six, value, Failed, None, found);
    } else {
      LoneEnd(three, four, five, value, found);
      if AfterRead(value, found).Reread? {
        Stays(six, value, Done, None, Some(Known(value)));
      } else {
        var failed := AfterRead(value, found).Failed?;
        var phase, lock := if failed then Failed else Done, if failed then Some(0) else None;
        var content := if failed then found else Some(Known(value));
        Stays(five, value, phase, lock, content);
        Stays(six, value, phase, lock, content);
      }
    }
  }

  lemma LoneRest(s: State, value: Manifest, found: Option<Content>)
    requires if Publishable(value) then At(Run(s, Calls(3)), value, AfterRead(value, found), Some(0), found)
             else At(Run(s, Calls(3)), value, Failed, None, found)
    ensures var t := Run(s, Calls(7));
            if !Publishable(value) then At(t, value, Failed, None, found)
            else if AfterRead(value, found).Failed? then At(t, value, Failed, Some(0), found)
            else At(t, value, Done, None, Some(Known(value)))
  {
    OneMoreCall(s, 3);
    OneMoreCall(s, 4);
    OneMoreCall(s, 5);
    OneMoreCall(s, 6);
    Finishes(Run(s, Calls(3)), Run(s, Calls(4)), Run(s, Calls(5)), Run(s, Calls(6)), Run(s, Calls(7)), value, found);
  }

  lemma GoesOnIff(value: Manifest, found: Option<Content>)
    ensures Publishable(value) <==> 1 <= value.sequence <= 9_007_199_254_740_991 && !value.state.Other?
    ensures Publishable(value) ==> (!AfterRead(value, found).Failed? <==> Open(value, found))
  {
  }

  /**
    A publisher on its own completes, within seven calls, exactly when its manifest is one of the four states under
    a safe positive sequence number and the path is absent, holds the same manifest, or holds an earlier state under
    the sequence number before. Otherwise it fails and the content is as it was.
   */
  lemma LonePublisherIff(value: Manifest, found: Option<Content>)
    ensures var t := Run(Initial(map[0 := value], found), Calls(7));
            && 0 in t.publishers
            && (if 1 <= value.sequence <= 9_007_199_254_740_991 && !value.state.Other? && Open(value, found)
                then t.publishers[0].phase.Done? && t.lock.None? && t.content == Some(Known(value))
                else t.publishers[0].phase.Failed? && t.content == found)
  {
    var s := Initial(map[0 := value], found);
    LoneStart(value, found);
    LoneRest(s, value, found);
    GoesOnIff(value, found);
  }
}
