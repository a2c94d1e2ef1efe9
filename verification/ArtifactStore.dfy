/**
  The write-once artifact store: publishers create a file in place, under a lock file, and write it in pieces.
  A torn file can be seen, but never without its lock.
 */
module ArtifactStore {
  import opened Results

  type Bytes = seq<int>

  /** The next filesystem call of a publisher. */
  datatype Phase = TakeLock | Create | Write | Compare | Unlock | Done | Failed | Crashed

  datatype Publisher = Publisher(bytes: Bytes, phase: Phase)

  /** `found` is what stood at the path before any of the publishers. */
  datatype State = State(publishers: map<nat, Publisher>, lock: Option<nat>, artifact: Option<Bytes>,
                         found: Option<Bytes>)

  datatype Event = Advance(p: nat) | WritePart(p: nat, part: Bytes) | Crash(p: nat)

  function Move(s: State, p: nat, phase: Phase): State
    requires p in s.publishers
  {
    s.(publishers := s.publishers[p := s.publishers[p].(phase := phase)])
  }

  function Call(s: State, p: nat): State
    requires p in s.publishers
  {
    var bytes := s.publishers[p].bytes;
    match s.publishers[p].phase
    case TakeLock => if s.lock.Some? then Move(s, p, Failed) else Move(s.(lock := Some(p)), p, Create)
    case Create => if s.artifact.Some? then Move(s, p, Compare) else Move(s.(artifact := Some([])), p, Write)
    case Write => Move(s.(artifact := Some(bytes)), p, Unlock)
    case Compare => if s.artifact == Some(bytes) then Move(s, p, Unlock) else Move(s, p, Failed)
    case Unlock => Move(s.(lock := None), p, Done)
    case _ => s
  }

  /** A write that has not finished shows readers some of the bytes. */
  function Apply(s: State, e: Event): State {
    if e.p !in s.publishers then s
    else match e
      case Advance(p) => Call(s, p)
      case WritePart(p, part) => if s.publishers[p].phase.Write? then s.(artifact := Some(part)) else s
      case Crash(p) => if s.publishers[p].phase.Done? then s else Move(s, p, Crashed)
  }

  function Run(s: State, events: seq<Event>): State {
    if events == [] then s else Apply(Run(s, events[..|events| - 1]), events[|events| - 1])
  }

  /** The path starts absent, or with the artifact an earlier process left there and unlocked. */
  function Initial(values: map<nat, Bytes>, found: Option<Bytes>): State {
    State(map p | p in values :: Publisher(values[p], TakeLock), None, found, found)
  }

  /** The artifact is the one that was found, or holds all the bytes of one of its publishers. */
  ghost predicate Complete(s: State) {
    && s.artifact.Some?
    && (s.artifact == s.found || exists p :: p in s.publishers && s.publishers[p].bytes == s.artifact.value)
  }

  predicate Locking(phase: Phase) {
    phase.Create? || phase.Write? || phase.Compare? || phase.Unlock?
  }

  predicate PublisherInv(s: State, p: nat)
    requires p in s.publishers
  {
    var x := s.publishers[p];
    && (Locking(x.phase) ==> s.lock == Some(p))
    && (x.phase.Unlock? || x.phase.Done? ==> s.artifact == Some(x.bytes))
  }

  predicate HeldByUnfinished(s: State) {
    && s.lock.Some? && s.lock.value in s.publishers
    && !s.publishers[s.lock.value].phase.Unlock? && !s.publishers[s.lock.value].phase.Done?
  }

  /** A torn file has its writer's lock: the lock holder is still writing it, or stopped while writing. */
  ghost predicate Inv(s: State) {
    && (forall p {:trigger PublisherInv(s, p)} :: p in s.publishers ==> PublisherInv(s, p))
    && (s.artifact.Some? && !Complete(s) ==> HeldByUnfinished(s))
    && (forall p :: p in s.publishers && s.publishers[p].phase.Write? ==>
          s.artifact.Some? && forall q :: q in s.publishers ==> !s.publishers[q].phase.Done?)
  }

  lemma StepKeepsInv(s: State, e: Event)
    requires Inv(s)
    ensures Inv(Apply(s, e))
  {
    if e.p in s.publishers {
      assert PublisherInv(s, e.p);
      var t := Apply(s, e);
      forall p | p in t.publishers ensures PublisherInv(t, p) {
        assert PublisherInv(s, p);
      }
      if Complete(s) && t.artifact == s.artifact && s.artifact != s.found {
        var p :| p in s.publishers && s.publishers[p].bytes == s.artifact.value;
        assert t.publishers[p].bytes == s.publishers[p].bytes;
      }
      if s.publishers[e.p].phase.Write? && e.Advance? {
        assert t.publishers[e.p].bytes == t.artifact.value;
      }
      forall p | p in t.publishers && t.publishers[p].phase.Write?
        ensures t.artifact.Some? && forall q :: q in t.publishers ==> !t.publishers[q].phase.Done?
      {
        assert PublisherInv(t, p);
        forall q | q in t.publishers ensures !t.publishers[q].phase.Done? {
          assert PublisherInv(s, q) && PublisherInv(s, p);
        }
      }
    }
  }

  lemma {:induction false} RunKeepsInv(values: map<nat, Bytes>, found: Option<Bytes>, events: seq<Event>)
    ensures Inv(Run(Initial(values, found), events))
  {
    if events == [] {
      forall p | p in values ensures PublisherInv(Initial(values, found), p) {
      }
    } else {
      RunKeepsInv(values, found, events[..|events| - 1]);
      StepKeepsInv(Run(Initial(values, found), events[..|events| - 1]), events[|events| - 1]);
    }
  }

  /** Over every interleaving and crash: with no lock file present, the artifact is absent or complete. */
  lemma NoLockMeansWhole(values: map<nat, Bytes>, found: Option<Bytes>, events: seq<Event>)
    requires Run(Initial(values, found), events).lock.None?
    ensures Run(Initial(values, found), events).artifact.None? || Complete(Run(Initial(values, found), events))
  {
    RunKeepsInv(values, found, events);
  }

  /** An artifact found at the path is never replaced or torn. */
  lemma {:induction false} FoundStays(values: map<nat, Bytes>, found: Option<Bytes>, events: seq<Event>)
    requires found.Some?
    ensures Run(Initial(values, found), events).artifact == found
    ensures forall p :: p in Run(Initial(values, found), events).publishers ==>
            !Run(Initial(values, found), events).publishers[p].phase.Write?
  {
    if events != [] {
      FoundStays(values, found, events[..|events| - 1]);
    }
  }

  // ----- when the bytes are final -----

  lemma {:induction false} RunConcat(s: State, xs: seq<Event>, ys: seq<Event>)
    ensures Run(s, xs + ys) == Run(Run(s, xs), ys)
  {
    if ys == [] {
      assert xs + ys == xs;
    } else {
      assert (xs + ys)[..|xs + ys| - 1] == xs + ys[..|ys| - 1];
      RunConcat(s, xs, ys[..|ys| - 1]);
    }
  }

  /** Some publisher is in the middle of writing the artifact. */
  predicate BeingWritten(s: State) {
    exists p :: p in s.publishers && s.publishers[p].phase.Write?
  }

  lemma {:induction false} UnwrittenStays(s: State, events: seq<Event>)
    requires s.artifact.Some? && !BeingWritten(s)
    ensures Run(s, events).artifact == s.artifact && !BeingWritten(Run(s, events))
  {
    if events != [] {
      UnwrittenStays(s, events[..|events| - 1]);
    }
  }

  /**
    After every run, an artifact that exists keeps its bytes in every continuation exactly when nobody is writing it.
   */
  lemma BytesStayIff(values: map<nat, Bytes>, found: Option<Bytes>, events: seq<Event>)
    requires Run(Initial(values, found), events).artifact.Some?
    ensures var s := Run(Initial(values, found), events);
            (forall more :: Run(Initial(values, found), events + more).artifact == s.artifact) <==> !BeingWritten(s)
  {
    var init, s := Initial(values, found), Run(Initial(values, found), events);
    if BeingWritten(s) {
      var p :| p in s.publishers && s.publishers[p].phase.Write?;
      var torn := [WritePart(p, s.artifact.value + [0])];
      RunConcat(init, events, torn);
      assert torn[..|torn| - 1] == [];
      assert |s.artifact.value + [0]| != |s.artifact.value|;
      assert Run(init, events + torn).artifact != s.artifact;
    } else {
      forall more ensures Run(init, events + more).artifact == s.artifact {
        RunConcat(init, events, more);
        UnwrittenStays(s, more);
      }
    }
  }

  /** Once a publisher has completed, or once the artifact is there without a lock, its bytes never change again. */
  lemma PublishedBytesStay(values: map<nat, Bytes>, found: Option<Bytes>, events: seq<Event>, more: seq<Event>)
    requires var s := Run(Initial(values, found), events);
             || (s.artifact.Some? && s.lock.None?)
             || exists p :: p in s.publishers && s.publishers[p].phase.Done?
    ensures Run(Initial(values, found), events).artifact.Some?
    ensures Run(Initial(values, found), events + more).artifact == Run(Initial(values, found), events).artifact
  {
    var s := Run(Initial(values, found), events);
    RunKeepsInv(values, found, events);
    if p :| p in s.publishers && s.publishers[p].phase.Done? {
      assert PublisherInv(s, p);
    } else {
      forall q | q in s.publishers ensures !s.publishers[q].phase.Write? {
        assert PublisherInv(s, q);
      }
    }
    RunConcat(Initial(values, found), events, more);
    UnwrittenStays(s, more);
  }

  /** Two publishers that both complete published the same bytes, and those are the artifact. */
  lemma CompletedPublishersAgree(values: map<nat, Bytes>, found: Option<Bytes>, events: seq<Event>, p: nat, q: nat)
    requires var s := Run(Initial(values, found), events);
             p in s.publishers && q in s.publishers && s.publishers[p].phase.Done? && s.publishers[q].phase.Done?
    ensures var s := Run(Initial(values, found), events);
            s.publishers[p].bytes == s.publishers[q].bytes && s.artifact == Some(s.publishers[p].bytes)
  {
    RunKeepsInv(values, found, events);
    var s := Run(Initial(values, found), events);
    assert PublisherInv(s, p) && PublisherInv(s, q);
  }

  // ----- one publisher on its own -----

  lemma RunOneMore(s: State, events: seq<Event>, e: Event)
    ensures Run(s, events + [e]) == Apply(Run(s, events), e)
  {
    assert (events + [e])[..|events + [e]| - 1] == events;
  }

  /** The first `n` calls of publisher 0. */
  function Calls(n: nat): seq<Event> {
    if n == 0 then [] else Calls(n - 1) + [Advance(0)]
  }

  lemma OneMoreCall(s: State, n: nat)
    ensures Run(s, Calls(n + 1)) == Apply(Run(s, Calls(n)), Advance(0))
  {
    RunOneMore(s, Calls(n), Advance(0));
  }

  /** Publisher 0 is at `phase`, over this lock and artifact. */
  predicate At(s: State, bytes: Bytes, phase: Phase, lock: Option<nat>, artifact: Option<Bytes>) {
    0 in s.publishers && s.publishers[0] == Publisher(bytes, phase) && s.lock == lock && s.artifact == artifact
  }

  /**
    A publisher on its own completes in four calls exactly when the path is absent or holds the same bytes, and takes
    its lock away. Otherwise it fails, leaves the artifact as it was, and leaves its lock.
   */
  lemma LonePublisherIff(bytes: Bytes, found: Option<Bytes>)
    ensures var t := Run(Initial(map[0 := bytes], found), Calls(4));
            if found.None? || found.value == bytes then At(t, bytes, Done, None, Some(bytes))
            else At(t, bytes, Failed, Some(0), found)
  {
    var s := Initial(map[0 := bytes], found);
    OneMoreCall(s, 0);
    OneMoreCall(s, 1);
    OneMoreCall(s, 2);
    OneMoreCall(s, 3);
    assert At(Run(s, Calls(1)), bytes, Create, Some(0), found);
    assert At(Run(s, Calls(2)), bytes, if found.None? then Write else Compare, Some(0),
              if found.None? then Some([]) else found);
    assert At(Run(s, Calls(3)), bytes, if found.None? || found.value == bytes then Unlock else Failed, Some(0),
              if found.None? then Some(bytes) else found);
  }
}
