/**
  Ordered publication of a few files by many writers over one filesystem. A writer prepares each file's bytes
  under a private name and links them into place, which fails if the place is taken; then it compares. Writers
  interleave at every filesystem call, may crash before any of them, and the machine may lose power; attempts that
  have not started by then can follow.

  Two disciplines: a checked pair (`Checked`) looks for conflicts first, links both files and then syncs both
  directories; a locked chain (`Locked`) takes a lock per file and syncs each file's directory before the next.
 */
module Publication {
  import opened Results

  type Path = string

  type Bytes = seq<int>

  type WriterId = nat

  datatype Member = Member(path: Path, bytes: Bytes)

  datatype Style = Checked | Locked

  datatype Job = Job(style: Style, members: seq<Member>)

  /** The next filesystem call of a writer; `k` numbers the member it is about. */
  datatype Phase =
    | Check(k: nat)
    | Lock(k: nat)
    | Prepare(k: nat)
    | Link(k: nat)
    | Compare(k: nat)
    | Sync(k: nat)
    | Unlock(k: nat)
    | Done
    | Failed
    | Crashed

  /** `prepared` is what the writer's private files hold. */
  datatype Writer = Writer(job: Job, phase: Phase, prepared: map<nat, Bytes>)

  /** `files` is what readers see; `durable` is the part of it that survives a power loss. */
  datatype Disk = Disk(files: map<Path, Bytes>, durable: map<Path, Bytes>, locks: set<Path>)

  datatype State = State(writers: map<WriterId, Writer>, disk: Disk)

  datatype Event =
    | Advance(w: WriterId)
    | TornWrite(w: WriterId, junk: Bytes)
    | Crash(w: WriterId)
    | PowerLoss(survivors: set<Path>, locks: set<Path>)

  function Directory(p: Path): Path {
    if p == "" || p[|p| - 1] == '/' then p else Directory(p[..|p| - 1])
  }

  function Start(job: Job): Writer {
    Writer(job, if job.members == [] then Done else if job.style.Checked? then Check(0) else Lock(0), map[])
  }

  /** Where a writer goes once member `k` is in place. */
  function AfterPlaced(job: Job, k: nat): Phase {
    if job.style.Locked? then Sync(k)
    else if k + 1 < |job.members| then Link(k + 1)
    else Sync(0)
  }

  /** A locked chain syncs the directory of one member, a checked pair the directories of all. */
  predicate Synced(job: Job, k: nat, p: Path)
    requires k < |job.members|
  {
    exists i :: 0 <= i < |job.members| && (job.style.Locked? ==> i == k)
        && Directory(p) == Directory(job.members[i].path)
  }

  predicate Running(x: Writer) {
    !x.phase.Done? && !x.phase.Failed? && !x.phase.Crashed? && x.phase.k < |x.job.members|
  }

  /** One filesystem call of a writer. */
  function Call(x: Writer, d: Disk): (Writer, Disk)
    requires Running(x)
  {
    var k := x.phase.k;
    var m := x.job.members[k];
    var more := k + 1 < |x.job.members|;
    match x.phase
    case Check(_) =>
      (if m.path in d.files && d.files[m.path] != m.bytes then x.(phase := Failed)
       else x.(phase := if more then Check(k + 1) else Prepare(0)), d)
    case Lock(_) =>
      if m.path in d.locks then (x.(phase := Failed), d)
      else (x.(phase := Prepare(k)), d.(locks := d.locks + {m.path}))
    case Prepare(_) =>
      (Writer(x.job, if x.job.style.Locked? then Link(k) else if more then Prepare(k + 1) else Link(0),
              x.prepared[k := m.bytes]), d)
    case Link(_) =>
      if m.path in d.files then (x.(phase := Compare(k)), d)
      else if k !in x.prepared then (x.(phase := Failed), d)
      else (x.(phase := AfterPlaced(x.job, k)), d.(files := d.files[m.path := x.prepared[k]]))
    case Compare(_) =>
      (x.(phase := if m.path in d.files && d.files[m.path] == m.bytes then AfterPlaced(x.job, k) else Failed), d)
    case Sync(_) =>
      (x.(phase := if x.job.style.Locked? then Unlock(k) else Done),
       d.(durable := d.durable + (map p | p in d.files && Synced(x.job, k, p) :: d.files[p])))
    case Unlock(_) =>
      (x.(phase := if more then Lock(k + 1) else Done), d.(locks := d.locks - {m.path}))
  }

  function SetPhase(s: State, w: WriterId, phase: Phase): State
    requires w in s.writers
  {
    s.(writers := s.writers[w := s.writers[w].(phase := phase)])
  }

  /** A power loss ends every attempt that is under way; one that has not started yet can be made afterwards. */
  function Stopped(x: Writer): Writer {
    if x.phase.Done? || x == Start(x.job) then x else x.(phase := Crashed)
  }

  function Apply(s: State, e: Event): State {
    match e
    case Advance(w) =>
      if w in s.writers && Running(s.writers[w]) then
        var (x, d) := Call(s.writers[w], s.disk);
        State(s.writers[w := x], d)
      else s
    case TornWrite(w, junk) =>
      if w in s.writers && s.writers[w].phase.Prepare? then
        s.(writers := s.writers[w := s.writers[w].(prepared := s.writers[w].prepared[s.writers[w].phase.k := junk])])
      else s
    case Crash(w) => if w in s.writers && !s.writers[w].phase.Done? then SetPhase(s, w, Crashed) else s
    case PowerLoss(survivors, locks) =>
      State(map w | w in s.writers :: Stopped(s.writers[w]),
            Disk(map p | p in s.disk.files && (p in s.disk.durable || p in survivors) :: s.disk.files[p],
                 s.disk.durable, locks))
  }

  function Run(s: State, events: seq<Event>): State {
    if events == [] then s else Apply(Run(s, events[..|events| - 1]), events[|events| - 1])
  }

  function Initial(jobs: map<WriterId, Job>): State {
    State(map w | w in jobs :: Start(jobs[w]), Disk(map[], map[], {}))
  }

  // ----- what every run keeps -----

  predicate Holds(files: map<Path, Bytes>, m: Member) {
    m.path in files && files[m.path] == m.bytes
  }

  /** The members before `k` are in place, and for a locked chain durably so. */
  predicate PlacedBefore(job: Job, d: Disk, k: nat) {
    forall i :: 0 <= i < k && i < |job.members| ==>
      Holds(d.files, job.members[i]) && (job.style.Locked? ==> Holds(d.durable, job.members[i]))
  }

  /** The private files from `lo` up to `hi` hold the bytes they should. */
  predicate Ready(x: Writer, lo: nat, hi: int) {
    forall i :: lo <= i < hi && i < |x.job.members| ==> i in x.prepared && x.prepared[i] == x.job.members[i].bytes
  }

  /** What a writer's phase says about the disk and its private files. */
  predicate WriterInv(x: Writer, d: Disk) {
    var n := |x.job.members|;
    var locked := x.job.style.Locked?;
    match x.phase
    case Check(_) => !locked
    case Lock(k) => locked && PlacedBefore(x.job, d, k)
    case Prepare(k) => if locked then PlacedBefore(x.job, d, k) else Ready(x, 0, k)
    case Link(k) => PlacedBefore(x.job, d, k) && Ready(x, k, if locked then k + 1 else n)
    case Compare(k) => PlacedBefore(x.job, d, k) && Ready(x, k, if locked then k + 1 else n)
    case Sync(k) =>
      if locked then PlacedBefore(x.job, d, k) && (k < n ==> Holds(d.files, x.job.members[k]))
      else PlacedBefore(x.job, d, n)
    case Unlock(k) => locked && PlacedBefore(x.job, d, k + 1)
    case Done => forall i :: 0 <= i < n ==> Holds(d.durable, x.job.members[i])
    case _ => true
  }

  /** Member `k` of the job accounts for the file at `p`, and the members before it are in place. */
  predicate Accounts(job: Job, d: Disk, k: nat, p: Path) {
    k < |job.members| && job.members[k].path == p && Holds(d.files, job.members[k]) && PlacedBefore(job, d, k)
  }

  ghost predicate Accounted(s: State, p: Path) {
    exists w, k :: w in s.writers && Accounts(s.writers[w].job, s.disk, k, p)
  }

  /** Files only appear; none changes or goes. */
  predicate Grows(a: map<Path, Bytes>, b: map<Path, Bytes>) {
    forall p :: p in a ==> p in b && b[p] == a[p]
  }

  /** What the writers believe about the disk is true, through power losses as well. */
  ghost predicate Believed(s: State) {
    && Grows(s.disk.durable, s.disk.files)
    && (forall w {:trigger WriterInv(s.writers[w], s.disk)} :: w in s.writers ==> WriterInv(s.writers[w], s.disk))
  }

  ghost predicate Inv(s: State) {
    Believed(s) && (forall p {:trigger Accounted(s, p)} :: p in s.disk.files ==> Accounted(s, p))
  }

  lemma CallGrows(x: Writer, d: Disk)
    requires Running(x) && Grows(d.durable, d.files)
    ensures var e := Call(x, d).1; Grows(d.files, e.files) && Grows(d.durable, e.durable) && Grows(e.durable, e.files)
    ensures Call(x, d).0.job == x.job
  {
  }

  /** After a sync, what was in place is durable. */
  lemma SyncKeepsWriter(x: Writer, d: Disk)
    requires Running(x) && x.phase.Sync? && WriterInv(x, d) && Grows(d.durable, d.files)
    ensures WriterInv(Call(x, d).0, Call(x, d).1)
  {
    CallGrows(x, d);
    var e := Call(x, d).1;
    forall i | 0 <= i < |x.job.members| && (x.job.style.Locked? ==> i == x.phase.k)
      ensures Holds(e.durable, x.job.members[i])
    {
      assert Holds(d.files, x.job.members[i]);
      assert Synced(x.job, x.phase.k, x.job.members[i].path);
    }
  }

  lemma CallKeepsWriter(x: Writer, d: Disk)
    requires Running(x) && WriterInv(x, d) && Grows(d.durable, d.files)
    ensures WriterInv(Call(x, d).0, Call(x, d).1)
  {
    if x.phase.Sync? {
      SyncKeepsWriter(x, d);
    } else {
      var (y, e) := Call(x, d);
      CallGrows(x, d);
      assert PlacedBefore(x.job, d, x.phase.k) ==> PlacedBefore(x.job, e, x.phase.k);
    }
  }

  lemma OtherKeeps(x: Writer, d: Disk, e: Disk)
    requires WriterInv(x, d) && Grows(d.files, e.files) && Grows(d.durable, e.durable)
    ensures WriterInv(x, e)
  {
  }

  lemma AccountsKeeps(job: Job, d: Disk, e: Disk, k: nat, p: Path)
    requires Accounts(job, d, k, p) && Grows(d.files, e.files) && Grows(d.durable, e.durable)
    ensures Accounts(job, e, k, p)
  {
  }

  lemma StillAccounted(s: State, t: State, p: Path)
    requires Accounted(s, p)
    requires forall w :: w in s.writers ==> w in t.writers && t.writers[w].job == s.writers[w].job
    requires Grows(s.disk.files, t.disk.files) && Grows(s.disk.durable, t.disk.durable)
    ensures Accounted(t, p)
  {
    var w, k :| w in s.writers && Accounts(s.writers[w].job, s.disk, k, p);
    AccountsKeeps(s.writers[w].job, s.disk, t.disk, k, p);
  }

  /** A file that a call puts in place is accounted for by that writer. */
  lemma NewFileAccounted(x: Writer, d: Disk, p: Path)
    requires Running(x) && WriterInv(x, d) && Grows(d.durable, d.files)
    requires p in Call(x, d).1.files && p !in d.files
    ensures x.phase.Link? && Accounts(x.job, Call(x, d).1, x.phase.k, p)
  {
    CallGrows(x, d);
  }

  lemma WriterStepKeepsBelieved(s: State, w: WriterId, x: Writer, d: Disk)
    requires Believed(s) && w in s.writers
    requires WriterInv(x, d) && Grows(d.durable, d.files)
    requires Grows(s.disk.files, d.files) && Grows(s.disk.durable, d.durable)
    ensures Believed(State(s.writers[w := x], d))
  {
    var t := State(s.writers[w := x], d);
    forall v | v in t.writers ensures WriterInv(t.writers[v], d) {
      if v != w {
        assert WriterInv(s.writers[v], s.disk);
        OtherKeeps(s.writers[v], s.disk, d);
      }
    }
  }

  /** Short of a power loss no published byte changes; through a power loss no durable one does. */
  lemma EventKeepsBelieved(s: State, e: Event)
    requires Believed(s)
    ensures Believed(Apply(s, e)) && Grows(s.disk.durable, Apply(s, e).disk.durable)
    ensures !e.PowerLoss? ==> Grows(s.disk.files, Apply(s, e).disk.files)
  {
    if e.PowerLoss? {
      PowerLossKeepsBelieved(s, e);
    } else if e.w in s.writers && Apply(s, e) != s {
      var x := s.writers[e.w];
      assert WriterInv(x, s.disk);
      match e
      case Advance(w) =>
        var (y, d) := Call(x, s.disk);
        CallGrows(x, s.disk);
        CallKeepsWriter(x, s.disk);
        WriterStepKeepsBelieved(s, w, y, d);
      case TornWrite(w, junk) =>
        WriterStepKeepsBelieved(s, w, x.(prepared := x.prepared[x.phase.k := junk]), s.disk);
      case Crash(w) =>
        WriterStepKeepsBelieved(s, w, x.(phase := Crashed), s.disk);
    }
  }

  lemma PowerLossKeepsBelieved(s: State, e: Event)
    requires Believed(s) && e.PowerLoss?
    ensures Believed(Apply(s, e))
  {
    var t := Apply(s, e);
    forall v | v in t.writers ensures WriterInv(t.writers[v], t.disk) {
      assert WriterInv(s.writers[v], s.disk);
    }
  }

  /** Every file that a step leaves on the disk is still accounted for. */
  lemma EventKeepsInv(s: State, e: Event)
    requires Inv(s) && !e.PowerLoss?
    ensures Inv(Apply(s, e))
  {
    var t := Apply(s, e);
    EventKeepsBelieved(s, e);
    forall p | p in t.disk.files ensures Accounted(t, p) {
      if p in s.disk.files {
        assert Accounted(s, p);
        StillAccounted(s, t, p);
      } else {
        assert WriterInv(s.writers[e.w], s.disk);
        NewFileAccounted(s.writers[e.w], s.disk, p);
        assert t.writers[e.w].job == s.writers[e.w].job;
      }
    }
  }

  predicate AllLocked(s: State) {
    forall w :: w in s.writers ==> s.writers[w].job.style.Locked?
  }

  /** A locked chain syncs each member before the next, so losing power cannot break it. */
  lemma PowerLossKeepsInv(s: State, e: Event)
    requires Inv(s) && e.PowerLoss? && AllLocked(s)
    ensures Inv(Apply(s, e))
  {
    var t := Apply(s, e);
    PowerLossKeepsBelieved(s, e);
    forall p | p in t.disk.files ensures Accounted(t, p) {
      assert Accounted(s, p);
      var w, k :| w in s.writers && Accounts(s.writers[w].job, s.disk, k, p);
      assert t.writers[w].job == s.writers[w].job;
      assert Accounts(t.writers[w].job, t.disk, k, p);
    }
  }

  /** Either the machine keeps power, or every writer uses locked chains. */
  predicate Covered(jobs: map<WriterId, Job>, events: seq<Event>) {
    (forall e :: e in events ==> !e.PowerLoss?) || (forall w :: w in jobs ==> jobs[w].style.Locked?)
  }

  predicate SameJobs(s: State, jobs: map<WriterId, Job>) {
    s.writers.Keys == jobs.Keys && forall w :: w in jobs ==> s.writers[w].job == jobs[w]
  }

  lemma EventKeepsJobs(s: State, e: Event, jobs: map<WriterId, Job>)
    requires SameJobs(s, jobs)
    ensures SameJobs(Apply(s, e), jobs)
  {
  }

  /** Over every run, whatever the disciplines and however often the machine loses power. */
  lemma {:induction false} RunKeepsBelieved(jobs: map<WriterId, Job>, events: seq<Event>)
    ensures Believed(Run(Initial(jobs), events)) && SameJobs(Run(Initial(jobs), events), jobs)
  {
    if events == [] {
      forall w | w in jobs ensures WriterInv(Start(jobs[w]), Initial(jobs).disk) {
      }
    } else {
      var before, e := Run(Initial(jobs), events[..|events| - 1]), events[|events| - 1];
      RunKeepsBelieved(jobs, events[..|events| - 1]);
      EventKeepsJobs(before, e, jobs);
      EventKeepsBelieved(before, e);
    }
  }

  lemma {:induction false} RunKeepsInv(jobs: map<WriterId, Job>, events: seq<Event>)
    requires Covered(jobs, events)
    ensures Inv(Run(Initial(jobs), events)) && SameJobs(Run(Initial(jobs), events), jobs)
  {
    RunKeepsBelieved(jobs, events);
    if events != [] {
      var before, e := Run(Initial(jobs), events[..|events| - 1]), events[|events| - 1];
      assert e in events;
      RunKeepsInv(jobs, events[..|events| - 1]);
      if e.PowerLoss? {
        PowerLossKeepsInv(before, e);
      } else {
        EventKeepsInv(before, e);
      }
    }
  }

  // ----- what follows -----

  /**
    No published file changes or goes in any continuation of any run, short of a power loss; a durable one does not
    even then.
   */
  lemma {:induction false} FilesNeverChange(jobs: map<WriterId, Job>, events: seq<Event>, more: seq<Event>)
    ensures var d, e := Run(Initial(jobs), events).disk, Run(Initial(jobs), events + more).disk;
            && Grows(d.durable, e.durable) && Grows(e.durable, e.files)
            && ((forall x :: x in more ==> !x.PowerLoss?) ==> Grows(d.files, e.files))
  {
    RunKeepsBelieved(jobs, events + more);
    if more == [] {
      assert events + more == events;
    } else {
      var front, last := more[..|more| - 1], more[|more| - 1];
      assert (events + more)[..|events + more| - 1] == events + front && last in more;
      FilesNeverChange(jobs, events, front);
      RunKeepsBelieved(jobs, events + front);
      EventKeepsBelieved(Run(Initial(jobs), events + front), last);
    }
  }

  /**
    Order, over every interleaving and every crash: any file that exists was published as some member of some
    writer's chain, and every member before it in that chain exists with that writer's bytes, as it does itself.
    Checked pairs keep this through process crashes, locked chains through power losses and later attempts as well.
   */
  lemma LaterFileNeedsEarlier(jobs: map<WriterId, Job>, events: seq<Event>, p: Path)
    requires Covered(jobs, events)
    requires p in Run(Initial(jobs), events).disk.files
    ensures var files := Run(Initial(jobs), events).disk.files;
            exists w, k :: w in jobs && 0 <= k < |jobs[w].members| && jobs[w].members[k].path == p
                           && forall i :: 0 <= i <= k ==> Holds(files, jobs[w].members[i])
  {
    RunKeepsInv(jobs, events);
    var s := Run(Initial(jobs), events);
    assert Accounted(s, p);
    var w, k :| w in s.writers && Accounts(s.writers[w].job, s.disk, k, p);
    assert forall i :: 0 <= i <= k ==> Holds(s.disk.files, jobs[w].members[i]);
  }

  /**
    Two writers that finish have published the same bytes at every path they share, and durably: whatever their
    disciplines, and however many attempts and power losses lie between them.
   */
  lemma FinishedWritersAgree(jobs: map<WriterId, Job>, events: seq<Event>, v: WriterId, w: WriterId, i: nat, j: nat)
    requires v in jobs && w in jobs && i < |jobs[v].members| && j < |jobs[w].members|
    requires var s := Run(Initial(jobs), events);
             v in s.writers && w in s.writers && s.writers[v].phase.Done? && s.writers[w].phase.Done?
    requires jobs[v].members[i].path == jobs[w].members[j].path
    ensures jobs[v].members[i].bytes == jobs[w].members[j].bytes
    ensures Holds(Run(Initial(jobs), events).disk.durable, jobs[v].members[i])
  {
    RunKeepsBelieved(jobs, events);
    var s := Run(Initial(jobs), events);
    assert WriterInv(s.writers[v], s.disk) && WriterInv(s.writers[w], s.disk);
  }

  lemma RunOneMore(s: State, events: seq<Event>, e: Event)
    ensures Run(s, events + [e]) == Apply(Run(s, events), e)
  {
    assert (events + [e])[..|events + [e]| - 1] == events;
  }

  // ----- when the order survives a power loss -----

  /** No path is listed twice. */
  predicate DistinctPaths(job: Job) {
    forall i, j :: 0 <= i < j < |job.members| ==> job.members[i].path != job.members[j].path
  }

  /** Whenever a later member of the job exists, so does each earlier one. */
  predicate Ordered(job: Job, files: map<Path, Bytes>) {
    forall i, j :: 0 <= i < j < |job.members| && job.members[j].path in files ==> job.members[i].path in files
  }

  /** One writer on a disk that has nothing durable and no locks. */
  function Solo(job: Job, phase: Phase, prepared: map<nat, Bytes>, files: map<Path, Bytes>): State {
    State(map[0 := Writer(job, phase, prepared)], Disk(files, map[], {}))
  }

  function PreparedUpto(job: Job, k: nat): map<nat, Bytes>
    requires k <= |job.members|
  {
    if k == 0 then map[] else PreparedUpto(job, k - 1)[k - 1 := job.members[k - 1].bytes]
  }

  function FilesUpto(job: Job, k: nat): map<Path, Bytes>
    requires k <= |job.members|
  {
    if k == 0 then map[] else FilesUpto(job, k - 1)[job.members[k - 1].path := job.members[k - 1].bytes]
  }

  lemma {:induction false} UptoFacts(job: Job, k: nat)
    requires k <= |job.members|
    ensures forall i: nat :: i in PreparedUpto(job, k) <==> i < k
    ensures forall i: nat :: i < k ==> PreparedUpto(job, k)[i] == job.members[i].bytes
    ensures forall p :: p in FilesUpto(job, k) <==> exists i :: 0 <= i < k && job.members[i].path == p
  {
    if k > 0 {
      UptoFacts(job, k - 1);
      forall p | p in FilesUpto(job, k) ensures exists i :: 0 <= i < k && job.members[i].path == p {
        assert job.members[k - 1].path == p || p in FilesUpto(job, k - 1);
      }
    }
  }

  lemma {:induction false} CheckedUpto(job: Job, k: nat) returns (events: seq<Event>)
    requires job.style.Checked? && k < |job.members|
    ensures Run(Initial(map[0 := job]), events) == Solo(job, Check(k), map[], map[])
  {
    if k == 0 {
      events := [];
      assert Initial(map[0 := job]) == Solo(job, Check(0), map[], map[]);
    } else {
      events := CheckedUpto(job, k - 1);
      RunOneMore(Initial(map[0 := job]), events, Advance(0));
      events := events + [Advance(0)];
    }
  }

  lemma {:induction false} PreparesUpto(job: Job, k: nat) returns (events: seq<Event>)
    requires job.style.Checked? && k < |job.members|
    ensures Run(Initial(map[0 := job]), events) == Solo(job, Prepare(k), PreparedUpto(job, k), map[])
  {
    if k == 0 {
      events := CheckedUpto(job, |job.members| - 1);
    } else {
      events := PreparesUpto(job, k - 1);
    }
    RunOneMore(Initial(map[0 := job]), events, Advance(0));
    events := events + [Advance(0)];
  }

  lemma AllPrepared(job: Job) returns (events: seq<Event>)
    requires job.style.Checked? && job.members != []
    ensures Run(Initial(map[0 := job]), events) == Solo(job, Link(0), PreparedUpto(job, |job.members|), map[])
  {
    events := PreparesUpto(job, |job.members| - 1);
    RunOneMore(Initial(map[0 := job]), events, Advance(0));
    events := events + [Advance(0)];
  }

  lemma FreeLink(job: Job, k: nat)
    requires DistinctPaths(job) && k < |job.members|
    ensures job.members[k].path !in FilesUpto(job, k)
    ensures k in PreparedUpto(job, |job.members|) && PreparedUpto(job, |job.members|)[k] == job.members[k].bytes
  {
    UptoFacts(job, k);
    UptoFacts(job, |job.members|);
  }

  lemma LinkStep(job: Job, k: nat)
    requires job.style.Checked? && DistinctPaths(job) && k < |job.members|
    ensures var n := |job.members|;
            Apply(Solo(job, Link(k), PreparedUpto(job, n), FilesUpto(job, k)), Advance(0))
            == Solo(job, if k + 1 < n then Link(k + 1) else Sync(0), PreparedUpto(job, n), FilesUpto(job, k + 1))
  {
    FreeLink(job, k);
    var prepared, files := PreparedUpto(job, |job.members|), FilesUpto(job, k);
    var x := Writer(job, Link(k), prepared);
    assert Call(x, Disk(files, map[], {})) ==
           (x.(phase := if k + 1 < |job.members| then Link(k + 1) else Sync(0)),
            Disk(files[job.members[k].path := job.members[k].bytes], map[], {}));
  }

  /** Losing power with nothing durable keeps what the disk happened to write. */
  lemma SoloLoss(job: Job, phase: Phase, prepared: map<nat, Bytes>, files: map<Path, Bytes>, p: Path)
    ensures forall q :: q in Apply(Solo(job, phase, prepared, files), PowerLoss({p}, {})).disk.files
                        <==> q in files && q == p
  {
  }

  lemma {:induction false} LinksUpto(job: Job, k: nat) returns (events: seq<Event>)
    requires job.style.Checked? && DistinctPaths(job) && k < |job.members|
    ensures Run(Initial(map[0 := job]), events)
            == Solo(job, Link(k), PreparedUpto(job, |job.members|), FilesUpto(job, k))
  {
    if k == 0 {
      events := AllPrepared(job);
    } else {
      events := LinksUpto(job, k - 1);
      LinkStep(job, k - 1);
      RunOneMore(Initial(map[0 := job]), events, Advance(0));
      events := events + [Advance(0)];
    }
  }

  /** A checked job links all its files before it syncs any: losing power then can keep just the last. */
  lemma CheckedPairLosesOrder(job: Job) returns (events: seq<Event>)
    requires job.style.Checked? && DistinctPaths(job) && |job.members| >= 2
    ensures var files := Run(Initial(map[0 := job]), events).disk.files;
            forall i :: 0 <= i < |job.members| ==> (job.members[i].path in files <==> i == |job.members| - 1)
  {
    var n := |job.members|;
    var s := Initial(map[0 := job]);
    events := LinksUpto(job, n - 1);
    LinkStep(job, n - 1);
    RunOneMore(s, events, Advance(0));
    events := events + [Advance(0)];
    var last := job.members[n - 1].path;
    RunOneMore(s, events, PowerLoss({last}, {}));
    events := events + [PowerLoss({last}, {})];
    SoloLoss(job, Sync(0), PreparedUpto(job, n), FilesUpto(job, n), last);
  }

  /**
    The order of one job's files survives every run, process crashes and power losses included, exactly when the
    job is a locked chain or has a single file.
   */
  lemma OrderSurvivesIff(job: Job)
    requires job.members != [] && DistinctPaths(job)
    ensures (forall events :: Ordered(job, Run(Initial(map[0 := job]), events).disk.files))
            <==> job.style.Locked? || |job.members| <= 1
  {
    if job.style.Locked? {
      forall events ensures Ordered(job, Run(Initial(map[0 := job]), events).disk.files) {
        LockedStaysOrdered(job, events);
      }
    } else if |job.members| >= 2 {
      var events := CheckedPairLosesOrder(job);
      var files := Run(Initial(map[0 := job]), events).disk.files;
      assert job.members[|job.members| - 1].path in files && job.members[0].path !in files;
      assert !Ordered(job, files);
    }
  }

  lemma LockedStaysOrdered(job: Job, events: seq<Event>)
    requires DistinctPaths(job) && job.style.Locked?
    ensures Ordered(job, Run(Initial(map[0 := job]), events).disk.files)
  {
    var jobs: map<WriterId, Job> := map[0 := job];
    var files := Run(Initial(jobs), events).disk.files;
    forall i, j | 0 <= i < j < |job.members| && job.members[j].path in files ensures job.members[i].path in files {
      LaterFileNeedsEarlier(jobs, events, job.members[j].path);
      var w, k :| w in jobs && 0 <= k < |jobs[w].members| && jobs[w].members[k].path == job.members[j].path
                  && forall m :: 0 <= m <= k ==> Holds(files, jobs[w].members[m]);
      assert k == j;
      assert Holds(files, jobs[w].members[i]);
    }
  }

  // ----- a writer on its own -----

  /** A phase belongs to the writer's discipline, and is about one of its members. */
  predicate Sensible(x: Writer) {
    && (x.phase.Check? ==> x.job.style.Checked?)
    && (x.phase.Lock? || x.phase.Unlock? ==> x.job.style.Locked?)
    && (x.phase.Done? || x.phase.Failed? || x.phase.Crashed? || x.phase.k < |x.job.members|)
  }

  /** A bound on the calls a writer can still make. */
  function Left(x: Writer): nat {
    if !Running(x) then 0
    else
      var n := |x.job.members|;
      var rest := n - x.phase.k;
      match x.phase
      case Check(_) => 4 * n + rest
      case Lock(_) => 6 * rest
      case Prepare(_) => if x.job.style.Locked? then 6 * rest - 1 else 3 * n + rest
      case Link(_) => if x.job.style.Locked? then 6 * rest - 2 else n + 2 * rest
      case Compare(_) => if x.job.style.Locked? then 6 * rest - 3 else n + 2 * rest - 1
      case Sync(_) => if x.job.style.Locked? then 6 * rest - 4 else rest
      case Unlock(_) => 6 * rest - 5
  }

  lemma CallProgress(x: Writer, d: Disk)
    requires Running(x) && Sensible(x)
    ensures Sensible(Call(x, d).0) && Left(Call(x, d).0) < Left(x)
  {
  }

  /** The writer and disk after it has run alone until it can go no further. */
  ghost function Finish(x: Writer, d: Disk): (Writer, Disk)
    requires Sensible(x)
    decreases Left(x)
  {
    if Running(x) then
      CallProgress(x, d);
      Finish(Call(x, d).0, Call(x, d).1)
    else (x, d)
  }

  predicate FreeOrOwn(d: Disk, m: Member) {
    m.path in d.files ==> d.files[m.path] == m.bytes
  }

  /** Every path from `k` on is free or holds the writer's own bytes, and is not locked against a locked chain. */
  predicate Clear(job: Job, d: Disk, k: nat) {
    forall i :: k <= i < |job.members| ==>
      FreeOrOwn(d, job.members[i]) && (job.style.Locked? ==> job.members[i].path !in d.locks)
  }

  /** Whether a writer running alone from here will finish. */
  predicate Passes(x: Writer, d: Disk)
    requires Sensible(x)
  {
    var job, locked := x.job, x.job.style.Locked?;
    match x.phase
    case Check(_) => Clear(job, d, 0)
    case Lock(k) => Clear(job, d, k)
    case Prepare(k) => if locked then FreeOrOwn(d, job.members[k]) && Clear(job, d, k + 1) else Clear(job, d, 0)
    case Link(k) => if locked then FreeOrOwn(d, job.members[k]) && Clear(job, d, k + 1) else Clear(job, d, k)
    case Compare(k) => Holds(d.files, job.members[k]) && Clear(job, d, k + 1)
    case Sync(k) => if locked then Clear(job, d, k + 1) else true
    case Unlock(k) => Clear(job, d, k + 1)
    case Done => true
    case _ => false
  }

  /** The members a checked writer has looked at so far were not in conflict. */
  predicate CheckedSoFar(x: Writer, d: Disk) {
    x.phase.Check? ==> forall i :: 0 <= i < x.phase.k && i < |x.job.members| ==> FreeOrOwn(d, x.job.members[i])
  }

  lemma ClearFrom(job: Job, d: Disk, k: nat)
    requires k < |job.members|
    ensures Clear(job, d, k) <==>
              && FreeOrOwn(d, job.members[k]) && (job.style.Locked? ==> job.members[k].path !in d.locks)
              && Clear(job, d, k + 1)
  {
  }

  /** Placing member `k`, locking it or unlocking it does not touch the members after it. */
  lemma LaterStaysClear(job: Job, d: Disk, e: Disk, k: nat)
    requires k < |job.members| && DistinctPaths(job)
    requires forall p :: p != job.members[k].path ==>
               (p in d.files <==> p in e.files) && (p in d.files ==> d.files[p] == e.files[p])
               && (p in d.locks <==> p in e.locks)
    ensures Clear(job, e, k + 1) <==> Clear(job, d, k + 1)
  {
  }

  lemma CallKeepsPassing(x: Writer, d: Disk)
    requires Running(x) && Sensible(x) && DistinctPaths(x.job) && WriterInv(x, d) && CheckedSoFar(x, d)
    ensures Sensible(Call(x, d).0)
    ensures Passes(Call(x, d).0, Call(x, d).1) <==> Passes(x, d)
    ensures CheckedSoFar(Call(x, d).0, Call(x, d).1)
  {
    CallProgress(x, d);
    if x.phase.Check? {
      CheckKeepsPassing(x, d);
    } else if x.job.style.Locked? {
      LockedKeepsPassing(x, d);
    } else {
      LinksKeepPassing(x, d);
    }
  }

  lemma LockedKeepsPassing(x: Writer, d: Disk)
    requires Running(x) && Sensible(x) && DistinctPaths(x.job) && WriterInv(x, d) && x.job.style.Locked?
    ensures Sensible(Call(x, d).0) && (Passes(Call(x, d).0, Call(x, d).1) <==> Passes(x, d))
            && !Call(x, d).0.phase.Check?
  {
    var e := Call(x, d).1;
    CallProgress(x, d);
    ClearFrom(x.job, d, x.phase.k);
    LaterStaysClear(x.job, d, e, x.phase.k);
  }

  lemma LinksKeepPassing(x: Writer, d: Disk)
    requires Running(x) && Sensible(x) && DistinctPaths(x.job) && WriterInv(x, d) && x.job.style.Checked?
             && !x.phase.Check?
    ensures Sensible(Call(x, d).0) && (Passes(Call(x, d).0, Call(x, d).1) <==> Passes(x, d))
            && !Call(x, d).0.phase.Check?
  {
    CallProgress(x, d);
    if x.phase.Link? || x.phase.Compare? {
      ClearFrom(x.job, d, x.phase.k);
      LaterStaysClear(x.job, d, Call(x, d).1, x.phase.k);
    }
  }

  lemma CheckKeepsPassing(x: Writer, d: Disk)
    requires Running(x) && x.phase.Check? && x.job.style.Checked? && CheckedSoFar(x, d)
    ensures Call(x, d).0.phase.Failed? ==> !Clear(x.job, d, 0)
    ensures Call(x, d).0.phase.Prepare? ==> Clear(x.job, d, 0)
    ensures CheckedSoFar(Call(x, d).0, Call(x, d).1)
  {
  }

  lemma {:induction false} FinishPasses(x: Writer, d: Disk)
    requires Sensible(x) && DistinctPaths(x.job) && WriterInv(x, d) && Grows(d.durable, d.files) && CheckedSoFar(x, d)
    ensures Finish(x, d).0.phase.Done? <==> Passes(x, d)
    ensures Finish(x, d).0.job == x.job && WriterInv(Finish(x, d).0, Finish(x, d).1)
    decreases Left(x)
  {
    if Running(x) {
      CallProgress(x, d);
      CallGrows(x, d);
      CallKeepsWriter(x, d);
      CallKeepsPassing(x, d);
      FinishPasses(Call(x, d).0, Call(x, d).1);
    }
  }

  /** The lock a writer holds. */
  function HeldBy(x: Writer): set<Path> {
    if Running(x) && x.job.style.Locked? && !x.phase.Lock? && !x.phase.Check? then {x.job.members[x.phase.k].path}
    else {}
  }

  lemma CallKeepsLocks(x: Writer, d: Disk)
    requires Running(x) && Sensible(x) && !Call(x, d).0.phase.Failed?
    ensures var (y, e) := Call(x, d); e.locks - HeldBy(y) == d.locks - HeldBy(x)
  {
  }

  /** A writer that finishes takes away its own lock and no other. */
  lemma {:induction false} FinishUnlocks(x: Writer, d: Disk)
    requires Sensible(x)
    ensures Finish(x, d).0.phase.Done? ==> Finish(x, d).1.locks == d.locks - HeldBy(x)
    decreases Left(x)
  {
    if Running(x) {
      CallProgress(x, d);
      if !Call(x, d).0.phase.Failed? {
        CallKeepsLocks(x, d);
      }
      FinishUnlocks(Call(x, d).0, Call(x, d).1);
    }
  }

  /**
    Recovery: whatever earlier attempts left behind, a writer that runs alone finishes, with all its files
    durably in place, exactly when each of its paths is free or already holds its bytes, and for a locked chain
    no lock was left on one of them. It leaves no lock of its own, and those of others.
   */
  lemma RetryFinishesIff(job: Job, d: Disk)
    requires DistinctPaths(job) && Grows(d.durable, d.files) && job.members != []
    ensures var (x, after) := Finish(Start(job), d);
            && (x.phase.Done? <==> Clear(job, d, 0))
            && (x.phase.Done? ==> after.locks == d.locks)
            && (x.phase.Done? ==> forall i :: 0 <= i < |job.members| ==> Holds(after.durable, job.members[i]))
  {
    FinishPasses(Start(job), d);
    FinishUnlocks(Start(job), d);
  }
}
