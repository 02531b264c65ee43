/** Packaging a build context off the event loop: callers of one loop share a
    semaphore, a thread pool does the work, and the packed archive has to be
    closed by whoever ends up owning it (src/ucloud_sandboxes_sdk/client.py). */
module BuildContext {
  import opened Runs

  const PERMITS: nat := 2   // _BUILD_CONTEXT_WORKERS

  // The task that runs `limiter.acquire()`.
  datatype Admission = Queued | Holding | Dropped

  // The executor's future. `Packed` carries an archive that must be closed.
  datatype Work = NotSubmitted | Waiting | Packing | Packed | Broken | Withdrawn

  // The permit of a submitted preparation, given back by the `finished` callback.
  datatype Giveback = NotYet | OnLoop | Returned | Lost

  // `Using` is the body of the `async with`; `Over` is any way of leaving.
  datatype Caller = Admitting | Submitting | Awaiting | Using | Over

  datatype Job = Job(
    caller: Caller,
    admission: Admission,
    work: Work,
    giveback: Giveback,
    chained: bool,       // the loop has copied the result to the wrapped future
    discard: bool,       // the discard callback is registered
    discarded: bool,     // ... and has run
    closes: nat)         // how often the archive was closed

  datatype State = State(free: nat, open: bool, jobs: seq<Job>)

  datatype Step =
    | Enter                          // a new caller creates its admission task
    | Admit(j: nat)                  // the semaphore grants
    | GiveUpAdmission(j: nat)        // deadline, cancellation, or both with a grant
    | Proceed(j: nat)                // the admission await returned
    | SubmitFails(j: nat)            // deadline passed or the executor refused
    | Submit(j: nat)
    | StartPacking(j: nat)
    | EndPacking(j: nat, ok: bool)
    | RunFinished(j: nat)            // thread: the `finished` callback
    | GiveBack(j: nat)               // loop: the queued limiter.release
    | Chain(j: nat)                  // loop: the wrapped future completes
    | RunDiscard(j: nat)             // whoever completes the future runs the discard callback
    | GiveUpWork(j: nat)             // deadline or cancellation, even with a result ready
    | Receive(j: nat)                // the work await returned the archive
    | Leave(j: nat)                  // the with-body ended, for whatever reason
    | CloseLoop

  const FRESH := Job(Admitting, Queued, NotSubmitted, NotYet, false, false, false, 0)

  ghost predicate WorkOver(w: Work) { w == Packed || w == Broken || w == Withdrawn }

  ghost predicate Init(s: State) { s == State(PERMITS, true, []) }

  // Steps of the loop need it open; steps of the pool's threads do not.
  ghost predicate Enabled(s: State, step: Step) {
    if step.Enter? || step.CloseLoop? then s.open
    else step.j < |s.jobs| && JobEnabled(s.free, s.open, s.jobs[step.j], step)
  }

  ghost predicate JobEnabled(free: nat, open: bool, me: Job, step: Step) {
    match step
    case Admit(_) => open && me.admission == Queued && free > 0
    case GiveUpAdmission(_) => open && me.caller == Admitting
    case Proceed(_) => open && me.caller == Admitting && me.admission == Holding
    case SubmitFails(_) => open && me.caller == Submitting
    case Submit(_) => open && me.caller == Submitting
    case StartPacking(_) => me.work == Waiting
    case EndPacking(_, _) => me.work == Packing
    case RunFinished(_) => WorkOver(me.work) && me.giveback == NotYet
    case GiveBack(_) => open && me.giveback == OnLoop
    case Chain(_) => open && WorkOver(me.work) && !me.chained
    case RunDiscard(_) => WorkOver(me.work) && me.discard && !me.discarded
    case GiveUpWork(_) => open && me.caller == Awaiting
    case Receive(_) => open && me.caller == Awaiting && me.chained && me.work == Packed
    case Leave(_) => open && me.caller == Using
    case _ => false
  }

  ghost function JobAfter(me: Job, step: Step, open: bool): Job {
    match step
    case Admit(_) => me.(admission := Holding)
    case GiveUpAdmission(_) => me.(caller := Over, admission := Dropped)
    case Proceed(_) => me.(caller := Submitting)
    case SubmitFails(_) => me.(caller := Over)
    case Submit(_) => me.(caller := Awaiting, work := Waiting)
    case StartPacking(_) => me.(work := Packing)
    case EndPacking(_, ok) => me.(work := if ok then Packed else Broken)
    case RunFinished(_) => me.(giveback := if open then OnLoop else Lost)
    case GiveBack(_) => me.(giveback := Returned)
    case Chain(_) => me.(chained := true)
    case RunDiscard(_) =>
      me.(discarded := true, closes := if me.work == Packed then me.closes + 1 else me.closes)
    case GiveUpWork(_) =>
      // queued work is cancelled; running or finished work is not
      me.(caller := Over, discard := true, work := if me.work == Waiting then Withdrawn else me.work)
    case Receive(_) => me.(caller := Using)
    case Leave(_) => me.(caller := Over, closes := me.closes + 1)
    case _ => me
  }

  ghost function FreeAfter(free: nat, me: Job, step: Step): int {
    match step
    case Admit(_) => free - 1
    case GiveUpAdmission(_) => if me.admission == Holding then free + 1 else free
    case SubmitFails(_) => free + 1
    case GiveBack(_) => free + 1
    case _ => free
  }

  ghost function Apply(s: State, step: Step): State
    requires Enabled(s, step)
  {
    if step.Enter? then s.(jobs := s.jobs + [FRESH])
    else if step.CloseLoop? then s.(open := false)
    else
      var me := s.jobs[step.j];
      s.(free := FreeAfter(s.free, me, step), jobs := s.jobs[step.j := JobAfter(me, step, s.open)])
  }

  ghost predicate Next(s: State, s': State) {
    exists step :: Enabled(s, step) && s' == Apply(s, step)
  }

  // ----- the invariant -----

  /** The job's admission took a permit that is not back in the semaphore. */
  ghost predicate HoldsPermit(me: Job) {
    && me.admission == Holding
    && me.giveback != Returned
    && !(me.caller == Over && me.work == NotSubmitted)
  }

  ghost function Holders(jobs: seq<Job>): set<nat> {
    set j | 0 <= j < |jobs| && HoldsPermit(jobs[j])
  }

  ghost predicate Submitted(me: Job) { me.work != NotSubmitted }

  /** Submitted and not finished: what the executor still has to do. */
  ghost predicate Unfinished(me: Job) { me.work == Waiting || me.work == Packing }

  ghost predicate JobInv(me: Job) {
    && (me.caller == Admitting ==> me.admission != Dropped)
    && (me.caller == Over ==> me.admission != Queued)
    && (me.caller == Submitting || me.caller == Awaiting || me.caller == Using || Submitted(me) ==> me.admission == Holding)
    && (me.caller == Admitting || me.caller == Submitting ==> !Submitted(me))
    && (me.caller == Awaiting || me.caller == Using ==> Submitted(me) && !me.discard)
    && (me.giveback != NotYet ==> WorkOver(me.work))
    && (me.chained ==> WorkOver(me.work))
    && (me.discard ==> me.caller == Over && Submitted(me))
    && (me.discarded ==> me.discard && WorkOver(me.work))
    && (me.work == Withdrawn ==> me.discard)
    && (me.caller == Using ==> me.work == Packed)
    && (me.caller == Over && Submitted(me) && !me.discard ==> me.work == Packed && me.closes == 1)
    && (me.caller != Over ==> me.closes == 0)
    && (me.discard ==> me.closes == if me.discarded && me.work == Packed then 1 else 0)
    && (!Submitted(me) ==> me.closes == 0)
  }

  ghost predicate Inv(s: State) {
    && (forall j :: 0 <= j < |s.jobs| ==> JobInv(s.jobs[j]))
    && s.free + |Holders(s.jobs)| == PERMITS
    && (s.open ==> forall j :: 0 <= j < |s.jobs| ==> s.jobs[j].giveback != Lost)
  }

  lemma HoldersAfter(jobs: seq<Job>, j: nat, me: Job)
    requires j < |jobs|
    ensures |Holders(jobs[j := me])| ==
      |Holders(jobs)| - (if HoldsPermit(jobs[j]) then 1 else 0) + (if HoldsPermit(me) then 1 else 0)
  {
    var others := Holders(jobs) - {j};
    assert Holders(jobs) == if HoldsPermit(jobs[j]) then others + {j} else others;
    assert Holders(jobs[j := me]) == if HoldsPermit(me) then others + {j} else others;
  }

  /** One job's step keeps its bookkeeping, and moves a permit between the job
      and the semaphore or leaves both alone. */
  lemma JobStep(me: Job, step: Step, free: nat, open: bool)
    requires JobInv(me) && JobEnabled(free, open, me, step)
    ensures var me' := JobAfter(me, step, open);
      && JobInv(me')
      && FreeAfter(free, me, step) + (if HoldsPermit(me') then 1 else 0)
           == free + (if HoldsPermit(me) then 1 else 0)
      && (me'.giveback == Lost ==> me.giveback == Lost || !open)
  {
  }

  lemma JobStepKeepsPermits(s: State, step: Step)
    requires Inv(s) && Enabled(s, step) && !step.Enter? && !step.CloseLoop?
    ensures Apply(s, step).free + |Holders(Apply(s, step).jobs)| == PERMITS
  {
    var me := s.jobs[step.j];
    JobStep(me, step, s.free, s.open);
    HoldersAfter(s.jobs, step.j, JobAfter(me, step, s.open));
  }

  lemma JobStepKeepsInv(s: State, step: Step)
    requires Inv(s) && Enabled(s, step) && !step.Enter? && !step.CloseLoop?
    ensures Inv(Apply(s, step))
  {
    JobStep(s.jobs[step.j], step, s.free, s.open);
    JobStepKeepsPermits(s, step);
  }

  lemma EnterKeepsInv(s: State)
    requires Inv(s)
    ensures Inv(s.(jobs := s.jobs + [FRESH]))
  {
    assert Holders(s.jobs + [FRESH]) == Holders(s.jobs);
  }

  lemma StepKeepsInv(s: State, step: Step)
    requires Inv(s) && Enabled(s, step)
    ensures Inv(Apply(s, step))
  {
    if step.Enter? {
      EnterKeepsInv(s);
    } else if !step.CloseLoop? {
      JobStepKeepsInv(s, step);
    }
  }

  lemma AlwaysInv(trace: seq<State>)
    requires IsRun(trace, Init, Next)
    ensures forall i :: 0 <= i < |trace| ==> Inv(trace[i])
  {
    forall s | Init(s) ensures Inv(s) {
      assert Holders(s.jobs) == {};
    }
    forall s, s' | Inv(s) && Next(s, s') ensures Inv(s') {
      var step :| Enabled(s, step) && s' == Apply(s, step);
      StepKeepsInv(s, step);
    }
    InvariantOfRun(trace, Init, Next, Inv);
  }

  ghost function UnfinishedJobs(jobs: seq<Job>): set<nat> {
    set j | 0 <= j < |jobs| && Unfinished(jobs[j])
  }

  /** Every permit is in the semaphore or with one job; at most two preparations
      are submitted and unfinished; no archive is closed twice or while in use. */
  lemma AdmissionRuns(trace: seq<State>, i: nat)
    requires IsRun(trace, Init, Next) && i < |trace|
    ensures var s := trace[i];
      && s.free + |Holders(s.jobs)| == PERMITS
      && |UnfinishedJobs(s.jobs)| <= 2
      && forall j :: 0 <= j < |s.jobs| ==>
           && s.jobs[j].closes <= 1
           && (s.jobs[j].closes == 1 ==> s.jobs[j].work == Packed && s.jobs[j].caller == Over)
  {
    AlwaysInv(trace);
    var s := trace[i];
    assert Inv(s);
    forall j | 0 <= j < |s.jobs| && Unfinished(s.jobs[j]) ensures HoldsPermit(s.jobs[j]) {
      assert JobInv(s.jobs[j]);
    }
    assert Holders(s.jobs) == UnfinishedJobs(s.jobs) + (Holders(s.jobs) - UnfinishedJobs(s.jobs));
    forall j | 0 <= j < |s.jobs|
      ensures s.jobs[j].closes <= 1
      ensures s.jobs[j].closes == 1 ==> s.jobs[j].work == Packed && s.jobs[j].caller == Over
    {
      assert JobInv(s.jobs[j]);
    }
  }

  /** Nothing is left to do for this job: its caller is gone and every callback has run. */
  ghost predicate Settled(me: Job) {
    && me.caller == Over
    && (Submitted(me) ==> WorkOver(me.work) && me.giveback != NotYet && me.giveback != OnLoop)
    && (me.discard ==> me.discarded)
  }

  /** A settled job has closed its archive exactly once if it packed one, and
      has given back its permit unless the loop was closed under it. */
  lemma SettledJobs(trace: seq<State>, i: nat, j: nat)
    requires IsRun(trace, Init, Next) && i < |trace| && j < |trace[i].jobs| && Settled(trace[i].jobs[j])
    ensures trace[i].jobs[j].closes == if trace[i].jobs[j].work == Packed then 1 else 0
    ensures HoldsPermit(trace[i].jobs[j]) ==> !trace[i].open
  {
    AlwaysInv(trace);
    assert Inv(trace[i]);
    assert JobInv(trace[i].jobs[j]);
  }

  /** While the loop is open, settled jobs leave the semaphore as it was created. */
  lemma SettledLoopIsIdle(trace: seq<State>, i: nat)
    requires IsRun(trace, Init, Next) && i < |trace| && trace[i].open
    requires forall j :: 0 <= j < |trace[i].jobs| ==> Settled(trace[i].jobs[j])
    ensures trace[i].free == 2
  {
    AlwaysInv(trace);
    var s := trace[i];
    assert Inv(s);
    forall j | 0 <= j < |s.jobs| ensures !HoldsPermit(s.jobs[j]) {
      SettledJobs(trace, i, j);
    }
    assert Holders(s.jobs) == {};
  }

  // ----- one preparation, from admission to its permit's return -----

  /** One more job, and so many free permits. */
  ghost function With(s: State, free: nat, me: Job): State { s.(free := free, jobs := s.jobs + [me]) }

  lemma StepOfLast(s: State, free: nat, me: Job, step: Step)
    requires !step.Enter? && !step.CloseLoop? && step.j == |s.jobs| && JobEnabled(free, s.open, me, step)
    requires FreeAfter(free, me, step) >= 0
    ensures Next(With(s, free, me), With(s, FreeAfter(free, me, step), JobAfter(me, step, s.open)))
  {
    var now := With(s, free, me);
    assert now.jobs[step.j] == me;
    assert Enabled(now, step);
    assert now.jobs[step.j := JobAfter(me, step, s.open)] == s.jobs + [JobAfter(me, step, s.open)];
    assert Apply(now, step) == With(s, FreeAfter(free, me, step), JobAfter(me, step, s.open));
  }

  lemma MoveLast(s: State, free: nat, me: Job, step: Step, freeAfter: nat, after: Job, end: State)
    requires !step.Enter? && !step.CloseLoop? && step.j == |s.jobs| && JobEnabled(free, s.open, me, step)
    requires FreeAfter(free, me, step) == freeAfter && JobAfter(me, step, s.open) == after
    requires Reaches(With(s, freeAfter, after), end, Next)
    ensures Reaches(With(s, free, me), end, Next)
  {
    StepOfLast(s, free, me, step);
    ReachesNext(With(s, free, me), With(s, freeAfter, after), end, Next);
  }

  // What a job looks like while its archive is packed.
  const PACKING := Job(Awaiting, Holding, Packing, NotYet, false, false, false, 0)

  /** A caller that gets a permit has its context packed, uses the archive, closes it
      once, and leaves the semaphore as it found it. */
  lemma ContextIsUsed(s: State)
    requires s.open && s.free > 0
    ensures Reaches(s, With(s, s.free, Job(Over, Holding, Packed, Returned, true, false, false, 1)), Next)
  {
    var end := With(s, s.free, Job(Over, Holding, Packed, Returned, true, false, false, 1));
    var j, free := |s.jobs|, s.free - 1;
    var packed, admitted := PACKING.(work := Packed), FRESH.(admission := Holding);
    var back := packed.(giveback := Returned);
    ReachesItself(end, Next);
    MoveLast(s, s.free, back.(chained := true, caller := Using), Leave(j), s.free, end.jobs[j], end);
    MoveLast(s, s.free, back.(chained := true), Receive(j), s.free, back.(chained := true, caller := Using), end);
    MoveLast(s, s.free, back, Chain(j), s.free, back.(chained := true), end);
    MoveLast(s, free, packed.(giveback := OnLoop), GiveBack(j), s.free, back, end);
    MoveLast(s, free, packed, RunFinished(j), free, packed.(giveback := OnLoop), end);
    MoveLast(s, free, PACKING, EndPacking(j, true), free, packed, end);
    MoveLast(s, free, PACKING.(work := Waiting), StartPacking(j), free, PACKING, end);
    MoveLast(s, free, admitted.(caller := Submitting), Submit(j), free, PACKING.(work := Waiting), end);
    MoveLast(s, free, admitted, Proceed(j), free, admitted.(caller := Submitting), end);
    MoveLast(s, s.free, FRESH, Admit(j), free, admitted, end);
    assert Enabled(s, Enter) && Apply(s, Enter) == With(s, s.free, FRESH);
    ReachesNext(s, With(s, s.free, FRESH), end, Next);
  }

  /** A caller that gives up while its context is packed leaves the archive to the
      callback, which closes it once; its permit comes back as well. */
  lemma AbandonedContextIsClosed(s: State)
    requires s.open
    ensures Reaches(With(s, s.free, PACKING), With(s, s.free + 1, Job(Over, Holding, Packed, Returned, false, true, true, 1)), Next)
  {
    var j := |s.jobs|;
    var end := With(s, s.free + 1, Job(Over, Holding, Packed, Returned, false, true, true, 1));
    var left := PACKING.(caller := Over, discard := true);
    var closed := left.(work := Packed, discarded := true, closes := 1);
    ReachesItself(end, Next);
    MoveLast(s, s.free, closed.(giveback := OnLoop), GiveBack(j), s.free + 1, end.jobs[j], end);
    MoveLast(s, s.free, closed, RunFinished(j), s.free, closed.(giveback := OnLoop), end);
    MoveLast(s, s.free, left.(work := Packed), RunDiscard(j), s.free, closed, end);
    MoveLast(s, s.free, left, EndPacking(j, true), s.free, left.(work := Packed), end);
    MoveLast(s, s.free, PACKING, GiveUpWork(j), s.free, left, end);
  }

  /** Work that is still queued when its caller gives up is withdrawn and never packed,
      and a caller that gives up its admission keeps no permit. */
  lemma EarlyGiveUps(s: State, me: Job)
    requires s.open
    ensures me == PACKING.(work := Waiting) ==>
      Next(With(s, s.free, me), With(s, s.free, me.(caller := Over, discard := true, work := Withdrawn)))
    ensures me.caller == Admitting ==>
      Next(With(s, s.free, me), With(s, if me.admission == Holding then s.free + 1 else s.free, me.(caller := Over, admission := Dropped)))
    ensures me.caller == Submitting ==> Next(With(s, s.free, me), With(s, s.free + 1, me.(caller := Over)))
  {
    if me == PACKING.(work := Waiting) {
      StepOfLast(s, s.free, me, GiveUpWork(|s.jobs|));
    }
    if me.caller == Admitting {
      StepOfLast(s, s.free, me, GiveUpAdmission(|s.jobs|));
    }
    if me.caller == Submitting {
      StepOfLast(s, s.free, me, SubmitFails(|s.jobs|));
    }
  }

  /** The loop starts open with both permits free, and can be closed at any time; a
      preparation that finishes after that cannot give its permit back. */
  lemma LoopOpensAndCloses(s: State, me: Job)
    ensures Init(State(2, true, []))
    ensures s.open ==> Next(s, s.(open := false))
    ensures !s.open && WorkOver(me.work) && me.giveback == NotYet ==>
      Next(With(s, s.free, me), With(s, s.free, me.(giveback := Lost)))
  {
    if s.open {
      assert Enabled(s, CloseLoop) && Next(s, Apply(s, CloseLoop));
    } else if WorkOver(me.work) && me.giveback == NotYet {
      StepOfLast(s, s.free, me, RunFinished(|s.jobs|));
    }
  }
}
