/**
  The settlement loop: up to twenty-five polls five seconds apart, until one that is inside its deadlines finds
  the run complete; and the separate checker that judges a journal of polls.
 */
module Settlement {
  import opened Results

  const POLLS: nat := 25
  const WINDOW_MS: int := 120_000
  const OPERATION_MS: int := 30_000

  /** What one read-only transaction does: it fails, or reports its times and the snapshot it read. */
  datatype Observation = DatabaseFailed
    | Observed(startedAt: int, finishedAt: int, complete: bool, digest: string, rows: nat)

  datatype Entry = Entry(pollNo: nat, offset: nat, scheduledAt: int, startedAt: Option<int>, finishedAt: Option<int>,
                         eligible: bool, complete: bool, digest: Option<string>, rows: nat, failed: bool)

  datatype Outcome = Outcome(startedAt: int, deadline: int, passed: bool, acceptedOffset: Option<nat>,
                             journal: seq<Entry>, finalDigest: Option<string>, finalRows: nat,
                             acceptedDigest: Option<string>)

  /** The database clock must start a poll inside the window, after its schedule, and finish it in time. */
  predicate Eligible(start: int, i: nat, o: Observation)
    requires o.Observed?
  {
    && start + 5 * i * 1_000 <= o.startedAt <= start + WINDOW_MS
    && o.startedAt <= o.finishedAt <= o.startedAt + OPERATION_MS
  }

  function EntryFor(start: int, i: nat, o: Observation): Entry {
    match o
    case DatabaseFailed => Entry(i + 1, 5 * i, start + 5 * i * 1_000, None, None, false, false, None, 0, true)
    case Observed(startedAt, finishedAt, complete, digest, rows) =>
      Entry(i + 1, 5 * i, start + 5 * i * 1_000, Some(startedAt), Some(finishedAt), Eligible(start, i, o),
            Eligible(start, i, o) && complete, Some(digest), rows, false)
  }

  /**
    The journal records polls 0, 1, 2, ... in order, each as the world answered it, and stops at the first
    complete one or after the last.
   */
  ghost predicate JournalOf(start: int, world: nat -> Observation, journal: seq<Entry>) {
    && 1 <= |journal| <= POLLS
    && (forall i :: 0 <= i < |journal| ==> journal[i] == EntryFor(start, i, world(i)))
    && (forall i :: 0 <= i < |journal| - 1 ==> !journal[i].complete)
    && (journal[|journal| - 1].complete || |journal| == POLLS)
  }

  /** The world and the clock determine the journal. */
  lemma JournalIsUnique(start: int, world: nat -> Observation, a: seq<Entry>, b: seq<Entry>)
    requires JournalOf(start, world, a) && JournalOf(start, world, b)
    ensures a == b
  {
    var k := (if |a| <= |b| then |a| else |b|) - 1;
    assert a[k] == b[k] == EntryFor(start, k, world(k));
  }

  /** What the last answered poll read. */
  function LastRead(journal: seq<Entry>): (r: (Option<string>, nat)) {
    if journal == [] then (None, 0)
    else
      var last := journal[|journal| - 1];
      if last.failed then LastRead(journal[..|journal| - 1]) else (last.digest, last.rows)
  }

  lemma LastReadOfAppend(journal: seq<Entry>, entry: Entry)
    ensures LastRead(journal + [entry]) == if entry.failed then LastRead(journal) else (entry.digest, entry.rows)
  {
    assert (journal + [entry])[..|journal|] == journal;
  }

  // ----- what that means for the observations themselves -----

  /** A query that began between its schedule and the end of the two minutes, and took at most thirty seconds. */
  predicate InTime(start: int, i: nat, o: Observation) {
    && o.Observed? && start + 5_000 * i <= o.startedAt <= start + 120_000
    && o.startedAt <= o.finishedAt <= o.startedAt + 30_000
  }

  /** Poll `i` is answered in time with a complete snapshot. */
  predicate Accepts(start: int, i: nat, o: Observation) {
    InTime(start, i, o) && o.complete
  }

  /** What an entry says about its poll: the times, digest and row count observed, none when the database failed. */
  predicate Records(start: int, i: nat, o: Observation, e: Entry) {
    && e.pollNo == i + 1 && e.offset == 5 * i && e.scheduledAt == start + 5_000 * i
    && (e.failed <==> o.DatabaseFailed?)
    && (e.eligible <==> InTime(start, i, o)) && (e.complete <==> Accepts(start, i, o))
    && (if o.DatabaseFailed? then e.startedAt.None? && e.finishedAt.None? && e.digest.None? && e.rows == 0
        else e.startedAt == Some(o.startedAt) && e.finishedAt == Some(o.finishedAt)
             && e.digest == Some(o.digest) && e.rows == o.rows)
  }

  /** The digest and row count are those of the last poll before `n` that the database answered. */
  ghost predicate LastAnswered(world: nat -> Observation, n: nat, digest: Option<string>, rows: nat) {
    || (digest == None && rows == 0 && forall k :: 0 <= k < n ==> world(k).DatabaseFailed?)
    || exists k :: 0 <= k < n && world(k).Observed? && digest == Some(world(k).digest) && rows == world(k).rows
                   && forall j :: k < j < n ==> world(j).DatabaseFailed?
  }

  /** The first poll that is accepted, if any is, decides; the journal ends with it, or after twenty-five polls. */
  ghost predicate Answers(start: int, world: nat -> Observation, o: Outcome) {
    && (o.passed <==> exists i: nat :: i < 25 && Accepts(start, i, world(i)))
    && (forall i: nat {:trigger world(i)} ::
          i < 25 && Accepts(start, i, world(i)) && (forall j: nat :: j < i ==> !Accepts(start, j, world(j))) ==>
            o.acceptedOffset == Some(5 * i) && o.acceptedDigest == Some(world(i).digest) && |o.journal| == i + 1)
    && (!o.passed ==> o.acceptedOffset.None? && o.acceptedDigest.None? && |o.journal| == 25)
    && (forall i: nat :: i < |o.journal| ==> Records(start, i, world(i), o.journal[i]))
    && LastAnswered(world, |o.journal|, o.finalDigest, o.finalRows)
  }

  lemma EntryRecords(start: int, i: nat, o: Observation)
    ensures Records(start, i, o, EntryFor(start, i, o))
  {
  }

  lemma {:induction false} LastReadIsLastAnswered(start: int, world: nat -> Observation, journal: seq<Entry>)
    requires forall i :: 0 <= i < |journal| ==> journal[i] == EntryFor(start, i, world(i))
    ensures LastAnswered(world, |journal|, LastRead(journal).0, LastRead(journal).1)
  {
    if journal != [] {
      var n := |journal| - 1;
      if world(n).DatabaseFailed? {
        LastReadIsLastAnswered(start, world, journal[..n]);
      }
    }
  }

  /** The outcome is that of the journal's last entry. */
  predicate Concludes(o: Outcome) {
    && o.journal != []
    && var last := o.journal[|o.journal| - 1];
    && (o.passed <==> last.complete)
    && o.acceptedOffset == (if last.complete then Some(last.offset) else None)
    && o.acceptedDigest == (if last.complete then last.digest else None)
    && (o.finalDigest, o.finalRows) == LastRead(o.journal)
  }

  lemma JournalAnswers(start: int, world: nat -> Observation, o: Outcome)
    requires JournalOf(start, world, o.journal) && Concludes(o)
    ensures Answers(start, world, o)
  {
    LastReadIsLastAnswered(start, world, o.journal);
    forall i: nat | i < |o.journal| ensures Records(start, i, world(i), o.journal[i]) {
      EntryRecords(start, i, world(i));
    }
    assert forall i: nat :: i < |o.journal| - 1 ==> !Accepts(start, i, world(i));
    var n := |o.journal| - 1;
    assert Records(start, n, world(n), o.journal[n]);
  }

  /** One poll: what the transaction answered, judged against its deadlines. */
  method TakePoll(start: int, i: nat, o: Observation) returns (entry: Entry)
    ensures entry == EntryFor(start, i, o)
    ensures Records(start, i, o, entry)
  {
    var offset := 5 * i;
    var scheduledAt := start + offset * 1_000;
    match o {
      case DatabaseFailed =>
        entry := Entry(i + 1, offset, scheduledAt, None, None, false, false, None, 0, true);
      case Observed(startedAt, finishedAt, complete, digest, rows) =>
        var startEligible := startedAt >= scheduledAt && startedAt <= start + WINDOW_MS;
        var finishEligible := finishedAt >= startedAt && finishedAt <= startedAt + OPERATION_MS;
        var eligible := startEligible && finishEligible;
        entry := Entry(i + 1, offset, scheduledAt, Some(startedAt), Some(finishedAt), eligible,
                       eligible && complete, Some(digest), rows, false);
    }
  }

  /** The loop: it polls until a poll is complete, or the last one is taken. */
  method PollUntilComplete(start: int, world: nat -> Observation) returns (r: Outcome)
    ensures JournalOf(start, world, r.journal) && r.startedAt == start && r.deadline == start + WINDOW_MS
    ensures Concludes(r)
  {
    var journal: seq<Entry> := [];
    var acceptedOffset: Option<nat>, acceptedDigest: Option<string> := None, None;
    var finalDigest: Option<string>, finalRows := None, 0;
    var i := 0;
    while i < POLLS
      invariant 0 <= i <= POLLS && |journal| == i
      invariant forall k :: 0 <= k < i ==> journal[k] == EntryFor(start, k, world(k)) && !journal[k].complete
      invariant acceptedOffset == None && acceptedDigest == None
      invariant (finalDigest, finalRows) == LastRead(journal)
    {
      var entry := TakePoll(start, i, world(i));
      LastReadOfAppend(journal, entry);
      journal := journal + [entry];
      if !entry.failed {
        finalDigest := entry.digest;
        finalRows := entry.rows;
        if entry.complete {
          acceptedOffset := Some(entry.offset);
          acceptedDigest := entry.digest;
          break;
        }
      }
      i := i + 1;
    }
    r := Outcome(start, start + WINDOW_MS, acceptedOffset.Some?, acceptedOffset, journal, finalDigest, finalRows,
                 acceptedDigest);
  }

  method RunAuthoritativeSettlement(runId: string, clock: Option<int>, world: nat -> Observation)
    returns (r: Result<Outcome>)
    ensures runId == "" ==> r == Err("SETTLEMENT_RUN_ID_REQUIRED")
    ensures runId != "" && clock.None? ==> r == Err("SETTLEMENT_CLOCK_INVALID")
    ensures runId != "" && clock.Some? ==> r.Ok?
    ensures r.Ok? ==> r.value.startedAt == clock.value && r.value.deadline == clock.value + 120_000
    ensures r.Ok? ==> Answers(clock.value, world, r.value)
    ensures r.Ok? ==> JournalOf(clock.value, world, r.value.journal) && Concludes(r.value)
  {
    if runId == "" {
      return Err("SETTLEMENT_RUN_ID_REQUIRED");
    }
    if clock.None? {
      return Err("SETTLEMENT_CLOCK_INVALID");
    }
    var outcome := PollUntilComplete(clock.value, world);
    JournalAnswers(clock.value, world, outcome);
    r := Ok(outcome);
  }

  /** What later checks demand of a passing settlement's offset and journal length. */
  predicate DownstreamOffset(acceptedOffset: Option<nat>, journalCardinality: nat) {
    && acceptedOffset.Some?
    && acceptedOffset.value <= 120 && acceptedOffset.value % 5 == 0
    && journalCardinality == acceptedOffset.value / 5 + 1
  }

  /** For every clock and every pattern of failures, a journal that ends complete meets the later checks. */
  lemma PassingMeetsDownstream(start: int, world: nat -> Observation, journal: seq<Entry>)
    requires JournalOf(start, world, journal) && journal[|journal| - 1].complete
    ensures DownstreamOffset(Some(journal[|journal| - 1].offset), |journal|)
    ensures forall i :: 0 <= i < |journal| ==> journal[i].pollNo == i + 1 && journal[i].offset == 5 * i
  {
  }

  // ----- the independent checker -----

  datatype Poll = Poll(offset: int, startedAt: Option<int>, complete: bool)

  /** The checker, with `unit` clock ticks to the second. A poll without a start time is in no window. */
  predicate TimingValid(unit: int, start: int, p: Poll) {
    p.startedAt.Some? && start + p.offset * unit <= p.startedAt.value <= start + 120 * unit
  }

  predicate OffsetsExact(polls: seq<Poll>) {
    |polls| <= 25 && forall i :: 0 <= i < |polls| ==> polls[i].offset == 5 * i
  }

  function FirstComplete(polls: seq<Poll>): (n: nat)
    ensures n <= |polls|
    ensures n < |polls| ==> polls[n].complete
    ensures forall i :: 0 <= i < n ==> !polls[i].complete
  {
    if polls == [] || polls[0].complete then 0
    else
      var n := 1 + FirstComplete(polls[1..]);
      assert forall i :: 1 <= i < n ==> polls[i] == polls[1..][i - 1];
      n
  }

  function EvaluateSettlement(unit: int, start: int, polls: seq<Poll>): Option<int> {
    if !OffsetsExact(polls) then None
    else if exists i :: 0 <= i < |polls| && !TimingValid(unit, start, polls[i]) then None
    else
      var n := FirstComplete(polls);
      if n < |polls| && n == |polls| - 1 then Some(polls[n].offset) else None
  }

  function PollsOf(journal: seq<Entry>): seq<Poll> {
    seq(|journal|, i requires 0 <= i < |journal| => Poll(journal[i].offset, journal[i].startedAt, journal[i].complete))
  }

  /** Every poll started on the database clock between its schedule and the deadline. */
  predicate StartedInWindow(start: int, journal: seq<Entry>) {
    forall i :: 0 <= i < |journal| ==>
      journal[i].startedAt.Some? && journal[i].scheduledAt <= journal[i].startedAt.value <= start + WINDOW_MS
  }

  /**
    Over every clock and every pattern of failures: the checker accepts the loop's journal, at the same offset,
    exactly when the loop passed and every poll, not only the accepted one, started inside its window.
   */
  lemma CheckerAgreesIff(start: int, world: nat -> Observation, journal: seq<Entry>)
    requires JournalOf(start, world, journal)
    ensures EvaluateSettlement(1_000, start, PollsOf(journal)).Some? <==>
              journal[|journal| - 1].complete && StartedInWindow(start, journal)
    ensures EvaluateSettlement(1_000, start, PollsOf(journal)).Some? ==>
              EvaluateSettlement(1_000, start, PollsOf(journal)).value == journal[|journal| - 1].offset
  {
    var polls := PollsOf(journal);
    var last := |journal| - 1;
    assert forall i :: 0 <= i < |polls| ==>
        polls[i] == Poll(journal[i].offset, journal[i].startedAt, journal[i].complete);
    assert OffsetsExact(polls);
    forall i | 0 <= i < |polls|
      ensures TimingValid(1_000, start, polls[i]) <==>
                journal[i].startedAt.Some? && journal[i].scheduledAt <= journal[i].startedAt.value <= start + WINDOW_MS
    {
    }
    var n := FirstComplete(polls);
    assert journal[last].complete ==> n == last;
  }

  /** The loop passes where the checker refuses, on every run in which a poll fails before the first complete one. */
  lemma LoopPassesCheckerRefuses(start: int, world: nat -> Observation, failed: nat, accepted: nat)
    requires failed < accepted < POLLS && world(failed).DatabaseFailed?
    requires EntryFor(start, accepted, world(accepted)).complete
    requires forall i :: 0 <= i < accepted ==> !EntryFor(start, i, world(i)).complete
    ensures var journal := seq(accepted + 1, i requires 0 <= i <= accepted => EntryFor(start, i, world(i)));
            && JournalOf(start, world, journal) && journal[accepted].complete
            && EvaluateSettlement(1_000, start, PollsOf(journal)).None?
  {
    var journal := seq(accepted + 1, i requires 0 <= i <= accepted => EntryFor(start, i, world(i)));
    assert JournalOf(start, world, journal);
    CheckerAgreesIff(start, world, journal);
    assert journal[failed].startedAt.None?;
  }
}
