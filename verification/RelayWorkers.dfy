/** Any number of relay worker loops over one shared request budget
    (src/ucloud_sandboxes_sdk/relay.py). */
module RelayWorkers {
  import opened Prelude
  import opened Runs
  import A = RelayAdmission
  import H = LeaseHandler

  // What became of a submitted handler: None when it was cancelled before it ran.
  type Ending = Option<H.State>

  // A task that ended still holds its permit until its done-callback has run.
  datatype TaskState = Running | Ended(ending: Ending) | Settled(ending: Ending)

  datatype Task = Task(owner: nat, request: nat, state: TaskState)

  datatype Phase =
    | Top                            // at the loop head, waiting for a slot, or backing off
    | Acquiring(call: nat)
    | Polling
    | Submitting(remaining: seq<nat>)
    | Gathering
    | Failing
    | Returned
    | Raised

  datatype Worker = Worker(
    limit: nat,            // max_concurrency
    phase: Phase,
    reserved: nat,
    tasks: set<nat>,
    leased: seq<nat>,      // every request its successful polls returned
    handled: seq<nat>)     // the task submitted for each of them

  datatype System = System(adm: A.System, workers: seq<Worker>, tasks: seq<Task>)

  datatype Step =
    | Wake(w: nat, stopped: bool)
    | Interrupt(w: nat)
    | Reap(w: nat, task: nat)
    | SeeStop(w: nat)
    | BeginAcquire(w: nat)
    | EndAcquire(w: nat, interrupted: bool)
    | PollFails(w: nat, fatal: bool)
    | PollReturns(w: nat, requests: seq<nat>)
    | Submit(w: nat)
    | SubmitFails(w: nat)
    | EndSubmit(w: nat)
    | TaskEnds(task: nat, ending: Ending)
    | Callback(task: nat)
    | GatherReturns(w: nat)
    | Cancel(w: nat)       // a cancellation, or a failed task seen by gather
    | EndFailing(w: nat)

  ghost predicate EndingPossible(e: Ending) {
    e.Some? ==> H.Inv(e.value) && e.value.main.Done?
  }

  ghost predicate Succeeded(t: Task) {
    !t.state.Running? && t.state.ending.Some? && t.state.ending.value.main == H.Done(H.Returns)
  }

  ghost predicate Init(s: System) {
    && A.Init(s.adm) && s.tasks == []
    && forall w :: 0 <= w < |s.workers| ==>
         s.workers[w].limit >= 1 && s.workers[w] == Worker(s.workers[w].limit, Top, 0, {}, [], [])
  }

  /** What the worker loop itself checks before a step. */
  ghost predicate Guard(s: System, step: Step) {
    if step.TaskEnds? then
      step.task < |s.tasks| && s.tasks[step.task].state == Running && EndingPossible(step.ending)
    else if step.Callback? then
      step.task < |s.tasks| && s.tasks[step.task].state.Ended?
    else
      && step.w < |s.workers|
      && var me := s.workers[step.w];
         match step
         case Wake(_, _) => me.phase.Acquiring?
         case Interrupt(_) => me.phase.Acquiring?
         case Reap(_, t) => me.phase == Top && t in me.tasks && t < |s.tasks| && s.tasks[t].state != Running
         case SeeStop(_) => me.phase == Top
         case BeginAcquire(_) => me.phase == Top && |me.tasks| < me.limit
         case EndAcquire(_, _) => me.phase.Acquiring?
         case PollFails(_, _) => me.phase == Polling
         case PollReturns(_, _) => me.phase == Polling
         case Submit(_) => me.phase.Submitting? && me.phase.remaining != []
         case SubmitFails(_) => me.phase.Submitting? && me.phase.remaining != []
         case EndSubmit(_) => me.phase == Submitting([])
         case GatherReturns(_) =>
           me.phase == Gathering && forall t :: t in me.tasks ==> t < |s.tasks| && Succeeded(s.tasks[t])
         case Cancel(_) => me.phase == Top || me.phase == Gathering
         case EndFailing(_) => me.phase == Failing
         case _ => false
  }

  /** The call a step makes on the shared budget, if any. */
  ghost function BudgetStep(s: System, step: Step): Option<A.Step>
    requires Guard(s, step)
  {
    match step
    case Wake(w, stopped) => Some(A.Wake(s.workers[w].phase.call, stopped))
    case Interrupt(w) => Some(A.Interrupt(s.workers[w].phase.call))
    case BeginAcquire(w) => Some(A.Acquire)
    case EndAcquire(w, interrupted) => Some(A.Finish(s.workers[w].phase.call, interrupted))
    case PollFails(w, _) => Some(A.Release(s.workers[w].reserved))
    case PollReturns(w, requests) =>
      if |requests| > s.workers[w].reserved then Some(A.Release(s.workers[w].reserved)) else None
    case SubmitFails(w) => Some(A.Release(s.workers[w].reserved))
    case EndSubmit(w) => Some(A.Release(s.workers[w].reserved))
    case Callback(_) => Some(A.Release(1))
    case _ => None
  }

  ghost predicate BudgetAllows(s: System, step: Step)
    requires Guard(s, step)
  {
    BudgetStep(s, step).Some? ==> A.Enabled(s.adm, BudgetStep(s, step).value)
  }

  ghost function ApplyBudget(s: System, step: Step): A.System
    requires Guard(s, step) && BudgetAllows(s, step)
  {
    if BudgetStep(s, step).Some? then A.Apply(s.adm, BudgetStep(s, step).value) else s.adm
  }

  ghost function ApplyWorker(s: System, step: Step, adm: A.System): Worker
    requires Guard(s, step) && !step.TaskEnds? && !step.Callback?
    requires step.EndAcquire? ==> s.workers[step.w].phase.call < |s.adm.calls| <= |adm.calls|
    requires step.EndAcquire? ==> s.adm.calls[s.workers[step.w].phase.call].Cleanup?
  {
    var me := s.workers[step.w];
    match step
    case Wake(_, _) => me
    case Interrupt(_) => me
    case Reap(_, t) =>
      me.(tasks := me.tasks - {t}, phase := if Succeeded(s.tasks[t]) then Top else Failing)
    case SeeStop(_) => me.(phase := Gathering)
    case BeginAcquire(_) => me.(phase := Acquiring(|s.adm.calls|))
    case EndAcquire(_, interrupted) =>
      if adm.calls[me.phase.call] == A.Claimed then me.(phase := Polling, reserved := 1)
      else if !interrupted && s.adm.calls[me.phase.call].reason == A.StopSeen then me.(phase := Gathering)
      else me.(phase := Failing)
    case PollFails(_, fatal) => me.(phase := if fatal then Failing else Top, reserved := 0)
    case PollReturns(_, requests) =>
      var polled := me.(leased := me.leased + requests);
      if |requests| > me.reserved then polled.(phase := Failing, reserved := 0)
      else polled.(phase := Submitting(requests))
    case Submit(_) =>
      me.(phase := Submitting(me.phase.remaining[1..]),
          reserved := if me.reserved > 0 then me.reserved - 1 else 0,
          tasks := me.tasks + {|s.tasks|}, handled := me.handled + [|s.tasks|])
    case SubmitFails(_) => me.(phase := Failing, reserved := 0)
    case EndSubmit(_) => me.(phase := Top, reserved := 0)
    case GatherReturns(_) => me.(phase := Returned)
    case Cancel(_) => me.(phase := Failing)
    case EndFailing(_) => me.(phase := Raised)
  }

  ghost function ApplyTasks(s: System, step: Step): seq<Task>
    requires Guard(s, step)
  {
    match step
    case Submit(w) => s.tasks + [Task(w, s.workers[w].phase.remaining[0], Running)]
    case TaskEnds(t, ending) => s.tasks[t := s.tasks[t].(state := Ended(ending))]
    case Callback(t) => s.tasks[t := s.tasks[t].(state := Settled(s.tasks[t].state.ending))]
    case _ => s.tasks
  }

  ghost function Apply(s: System, step: Step): System
    requires Guard(s, step) && BudgetAllows(s, step)
  {
    var adm := ApplyBudget(s, step);
    System(adm,
           if step.TaskEnds? || step.Callback? then s.workers
           else s.workers[step.w := ApplyWorker(s, step, adm)],
           ApplyTasks(s, step))
  }

  ghost predicate Next(s: System, s': System) {
    exists step :: Guard(s, step) && BudgetAllows(s, step) && s' == Apply(s, step)
  }

  // ----- the invariant -----

  ghost function Reserving(workers: seq<Worker>): set<nat> {
    set w | 0 <= w < |workers| && workers[w].reserved == 1
  }

  ghost function Unsettled(tasks: seq<Task>): set<nat> {
    set t | 0 <= t < |tasks| && !tasks[t].state.Settled?
  }

  /** The permit a worker's loop itself accounts for, and room for the task it may submit. */
  ghost predicate PhaseInv(me: Worker) {
    && me.reserved <= 1
    && (me.phase == Polling ==> me.reserved == 1)
    && (me.phase.Submitting? ==> |me.phase.remaining| <= me.reserved)
    && (me.phase != Polling && !me.phase.Submitting? ==> me.reserved == 0)
    && |me.tasks| + me.reserved + (if me.phase.Acquiring? then 1 else 0) <= me.limit
  }

  ghost predicate Failed(me: Worker) { me.phase == Failing || me.phase == Raised }

  ghost function Remaining(me: Worker): seq<nat> {
    if me.phase.Submitting? then me.phase.remaining else []
  }

  /** A worker that has not failed has a task for every leased request, and has
      let go only of tasks that succeeded. */
  ghost predicate LeaseInv(me: Worker, tasks: seq<Task>) {
    && (forall h :: h in me.handled ==> h < |tasks|)
    && (forall t :: t in me.tasks ==> t < |tasks|)
    && (!Failed(me) ==>
          && |me.leased| == |me.handled| + |Remaining(me)|
          && me.leased[|me.handled|..] == Remaining(me)
          && (forall i :: 0 <= i < |me.handled| ==>
                && me.handled[i] < |tasks|
                && tasks[me.handled[i]].request == me.leased[i]
                && (me.handled[i] in me.tasks || Succeeded(tasks[me.handled[i]]))))
    && (me.phase == Returned ==> forall t :: t in me.tasks ==> Succeeded(tasks[t]))
  }

  ghost predicate CallOwned(s: System, id: nat) {
    exists w :: 0 <= w < |s.workers| && s.workers[w].phase == Acquiring(id)
  }

  ghost predicate HeldOk(s: System) {
    s.adm.held == |Reserving(s.workers)| + |Unsettled(s.tasks)|
  }

  ghost predicate WorkersOk(s: System) {
    forall w :: 0 <= w < |s.workers| ==> PhaseInv(s.workers[w]) && LeaseInv(s.workers[w], s.tasks)
  }

  /** Every acquire call that has not returned is some worker's. */
  ghost predicate CallsOk(s: System) {
    && (forall w :: 0 <= w < |s.workers| && s.workers[w].phase.Acquiring? ==>
          s.workers[w].phase.call < |s.adm.calls|)
    && (forall id :: 0 <= id < |s.adm.calls| && !A.Finished(s.adm.calls[id]) ==> CallOwned(s, id))
  }

  ghost predicate EndingsOk(s: System) {
    forall t :: 0 <= t < |s.tasks| ==> s.tasks[t].state.Running? || EndingPossible(s.tasks[t].state.ending)
  }

  ghost predicate Inv(s: System) {
    A.Inv(s.adm) && HeldOk(s) && WorkersOk(s) && CallsOk(s) && EndingsOk(s)
  }

  /** Whatever a worker holds, the budget takes back: no release is ever one too many. */
  lemma ReleaseAlwaysAllowed(s: System, step: Step)
    requires Inv(s) && Guard(s, step)
    requires BudgetStep(s, step).Some? && BudgetStep(s, step).value.Release?
    ensures BudgetAllows(s, step)
  {
    if step.Callback? {
      assert step.task in Unsettled(s.tasks);
    } else if s.workers[step.w].reserved == 1 {
      assert step.w in Reserving(s.workers);
    }
  }

  lemma ReservingAfter(workers: seq<Worker>, w: nat, me: Worker)
    requires w < |workers| && workers[w].reserved <= 1 && me.reserved <= 1
    ensures |Reserving(workers[w := me])| == |Reserving(workers)| + me.reserved - workers[w].reserved
  {
    var others := Reserving(workers) - {w};
    assert Reserving(workers) == if workers[w].reserved == 1 then others + {w} else others;
    assert Reserving(workers[w := me]) == if me.reserved == 1 then others + {w} else others;
  }

  lemma UnsettledWithOneMore(tasks: seq<Task>, task: Task)
    requires !task.state.Settled?
    ensures |Unsettled(tasks + [task])| == |Unsettled(tasks)| + 1
  {
    assert Unsettled(tasks + [task]) == Unsettled(tasks) + {|tasks|};
  }

  lemma UnsettledWithChange(tasks: seq<Task>, t: nat, task: Task)
    requires t < |tasks| && !tasks[t].state.Settled?
    ensures |Unsettled(tasks[t := task])| == |Unsettled(tasks)| - (if task.state.Settled? then 1 else 0)
  {
    assert t in Unsettled(tasks);
    assert Unsettled(tasks[t := task]) == if task.state.Settled? then Unsettled(tasks) - {t} else Unsettled(tasks);
  }

  lemma UnsettledAfter(s: System, step: Step)
    requires Guard(s, step)
    ensures var n, n' := |Unsettled(s.tasks)|, |Unsettled(ApplyTasks(s, step))|;
      n' == if step.Submit? then n + 1 else if step.Callback? then n - 1 else n
  {
    match step
    case Submit(w) => UnsettledWithOneMore(s.tasks, Task(w, s.workers[w].phase.remaining[0], Running));
    case TaskEnds(t, ending) => UnsettledWithChange(s.tasks, t, s.tasks[t].(state := Ended(ending)));
    case Callback(t) => UnsettledWithChange(s.tasks, t, s.tasks[t].(state := Settled(s.tasks[t].state.ending)));
    case _ =>
  }

  /** What a step adds to the permits that acquire has handed out. */
  ghost function HeldChange(s: System, step: Step): int
    requires Guard(s, step) && BudgetAllows(s, step)
  {
    match step
    case EndAcquire(w, _) =>
      if ApplyBudget(s, step).calls[s.workers[w].phase.call] == A.Claimed then 1 else 0
    case PollFails(w, _) => 0 - s.workers[w].reserved as int
    case PollReturns(w, requests) => if |requests| > s.workers[w].reserved then 0 - s.workers[w].reserved as int else 0
    case SubmitFails(w) => 0 - s.workers[w].reserved as int
    case EndSubmit(w) => 0 - s.workers[w].reserved as int
    case Callback(_) => -1
    case _ => 0
  }

  lemma BudgetHeld(s: System, step: Step)
    requires Guard(s, step) && BudgetAllows(s, step)
    ensures ApplyBudget(s, step).held == s.adm.held + HeldChange(s, step)
  {
  }

  lemma WorkerReserved(s: System, step: Step)
    requires Guard(s, step) && BudgetAllows(s, step) && !step.TaskEnds? && !step.Callback?
    requires PhaseInv(s.workers[step.w])
    ensures Apply(s, step).workers[step.w].reserved - s.workers[step.w].reserved
         == HeldChange(s, step) - (if step.Submit? then 1 else 0)
  {
  }

  lemma StepKeepsHeld(s: System, step: Step)
    requires Inv(s) && Guard(s, step) && BudgetAllows(s, step)
    ensures HeldOk(Apply(s, step))
  {
    UnsettledAfter(s, step);
    BudgetHeld(s, step);
    if !step.TaskEnds? && !step.Callback? {
      WorkerReserved(s, step);
      WorkerKeepsPhaseInv(s, step, step.w);
      ReservingAfter(s.workers, step.w, Apply(s, step).workers[step.w]);
    }
  }

  lemma CallsAfter(s: System, step: Step)
    requires Guard(s, step) && BudgetAllows(s, step)
    ensures var calls := ApplyBudget(s, step).calls;
      && |calls| == |s.adm.calls| + (if step.BeginAcquire? then 1 else 0)
      && forall id :: 0 <= id < |s.adm.calls| && !A.Finished(calls[id]) ==>
           && !A.Finished(s.adm.calls[id])
           && (step.EndAcquire? ==> id != s.workers[step.w].phase.call)
  {
  }

  /** Only a worker's own acquire changes what it waits for. */
  lemma PhaseStaysAcquiring(s: System, step: Step, w: nat)
    requires Guard(s, step) && BudgetAllows(s, step) && w < |s.workers| && s.workers[w].phase.Acquiring?
    requires !(step.EndAcquire? && step.w == w)
    ensures Apply(s, step).workers[w].phase == s.workers[w].phase
  {
  }

  lemma StepKeepsCalls(s: System, step: Step)
    requires Inv(s) && Guard(s, step) && BudgetAllows(s, step)
    ensures CallsOk(Apply(s, step))
  {
    CallsAfter(s, step);
    var s' := Apply(s, step);
    forall id | 0 <= id < |s'.adm.calls| && !A.Finished(s'.adm.calls[id]) ensures CallOwned(s', id) {
      if id == |s.adm.calls| {
        assert s'.workers[step.w].phase == Acquiring(id);
      } else {
        assert CallOwned(s, id);
        var w :| 0 <= w < |s.workers| && s.workers[w].phase == Acquiring(id);
        PhaseStaysAcquiring(s, step, w);
      }
    }
    forall w | 0 <= w < |s'.workers| && s'.workers[w].phase.Acquiring?
      ensures s'.workers[w].phase.call < |s'.adm.calls|
    {
      PhaseBecomesAcquiring(s, step, w);
    }
  }

  lemma PhaseBecomesAcquiring(s: System, step: Step, w: nat)
    requires Guard(s, step) && BudgetAllows(s, step) && w < |s.workers| && Apply(s, step).workers[w].phase.Acquiring?
    ensures var phase := Apply(s, step).workers[w].phase;
      phase == s.workers[w].phase || (step.BeginAcquire? && phase == Acquiring(|s.adm.calls|))
  {
  }

  lemma WorkerKeepsPhaseInv(s: System, step: Step, w: nat)
    requires Inv(s) && Guard(s, step) && BudgetAllows(s, step) && w < |s.workers|
    ensures PhaseInv(Apply(s, step).workers[w])
  {
    assert PhaseInv(s.workers[w]);
  }

  lemma TasksOnlyGetOn(s: System, step: Step, t: nat)
    requires Guard(s, step) && t < |s.tasks|
    ensures var tasks' := ApplyTasks(s, step);
      && t < |tasks'| && tasks'[t].owner == s.tasks[t].owner && tasks'[t].request == s.tasks[t].request
      && (Succeeded(s.tasks[t]) ==> Succeeded(tasks'[t]))
  {
  }

  lemma LeaseInvSurvives(s: System, step: Step, me: Worker)
    requires Guard(s, step) && LeaseInv(me, s.tasks)
    ensures LeaseInv(me, ApplyTasks(s, step))
  {
    forall t | 0 <= t < |s.tasks|
      ensures var tasks' := ApplyTasks(s, step);
        && t < |tasks'| && tasks'[t].request == s.tasks[t].request
        && (Succeeded(s.tasks[t]) ==> Succeeded(tasks'[t]))
    {
      TasksOnlyGetOn(s, step, t);
    }
  }

  lemma WorkerKeepsLeaseInv(s: System, step: Step, w: nat)
    requires Inv(s) && Guard(s, step) && BudgetAllows(s, step) && w < |s.workers|
    ensures LeaseInv(Apply(s, step).workers[w], Apply(s, step).tasks)
  {
    var me, me' := s.workers[w], Apply(s, step).workers[w];
    assert LeaseInv(me, s.tasks) && PhaseInv(me);
    LeaseInvSurvives(s, step, me);
    if me' != me {
      OwnStepKeepsLeaseInv(s, step);
    }
  }

  lemma OwnStepKeepsLeaseInv(s: System, step: Step)
    requires Guard(s, step) && BudgetAllows(s, step) && !step.TaskEnds? && !step.Callback?
    requires LeaseInv(s.workers[step.w], s.tasks) && PhaseInv(s.workers[step.w])
    requires LeaseInv(s.workers[step.w], ApplyTasks(s, step))
    ensures LeaseInv(Apply(s, step).workers[step.w], ApplyTasks(s, step))
  {
    match step
    case Submit(w) => SubmitKeepsLeaseInv(s, w);
    case PollReturns(w, requests) => PollKeepsLeaseInv(s, w, requests);
    case Reap(w, t) => ReapKeepsLeaseInv(s, w, t);
    case _ =>
  }

  lemma PollKeepsLeaseInv(s: System, w: nat, requests: seq<nat>)
    requires Guard(s, PollReturns(w, requests)) && BudgetAllows(s, PollReturns(w, requests))
    requires LeaseInv(s.workers[w], s.tasks)
    ensures LeaseInv(Apply(s, PollReturns(w, requests)).workers[w], s.tasks)
  {
    var me := s.workers[w];
    assert (me.leased + requests)[|me.leased|..] == requests;
  }

  lemma ReapKeepsLeaseInv(s: System, w: nat, t: nat)
    requires Guard(s, Reap(w, t)) && BudgetAllows(s, Reap(w, t)) && LeaseInv(s.workers[w], s.tasks)
    ensures LeaseInv(Apply(s, Reap(w, t)).workers[w], s.tasks)
  {
  }

  lemma SubmitKeepsLeaseInv(s: System, w: nat)
    requires Guard(s, Submit(w)) && BudgetAllows(s, Submit(w))
    requires LeaseInv(s.workers[w], ApplyTasks(s, Submit(w)))
    ensures LeaseInv(Apply(s, Submit(w)).workers[w], ApplyTasks(s, Submit(w)))
  {
    var me := s.workers[w];
    assert me.leased[|me.handled|] == me.phase.remaining[0];
    assert me.leased[|me.handled| + 1..] == me.phase.remaining[1..];
  }

  lemma StepKeepsWorkers(s: System, step: Step)
    requires Inv(s) && Guard(s, step) && BudgetAllows(s, step)
    ensures WorkersOk(Apply(s, step))
  {
    forall w | 0 <= w < |s.workers|
      ensures PhaseInv(Apply(s, step).workers[w]) && LeaseInv(Apply(s, step).workers[w], Apply(s, step).tasks)
    {
      WorkerKeepsPhaseInv(s, step, w);
      WorkerKeepsLeaseInv(s, step, w);
    }
  }

  lemma StepKeepsEndings(s: System, step: Step)
    requires Inv(s) && Guard(s, step) && BudgetAllows(s, step)
    ensures EndingsOk(Apply(s, step))
  {
  }

  lemma StepKeepsInv(s: System, step: Step)
    requires Inv(s) && Guard(s, step) && BudgetAllows(s, step)
    ensures Inv(Apply(s, step))
  {
    if BudgetStep(s, step).Some? {
      A.StepKeepsInv(s.adm, BudgetStep(s, step).value);
    }
    StepKeepsHeld(s, step);
    StepKeepsWorkers(s, step);
    StepKeepsCalls(s, step);
    StepKeepsEndings(s, step);
  }

  // ----- what holds at every moment of every run -----

  ghost function PollingWorkers(s: System): set<nat> {
    set w | 0 <= w < |s.workers| && s.workers[w].phase == Polling
  }

  ghost function RunningTasks(s: System): set<nat> {
    set t | 0 <= t < |s.tasks| && s.tasks[t].state == Running
  }

  /** Every worker has ended and every done-callback has run. */
  ghost predicate Quiet(s: System) {
    && (forall w :: 0 <= w < |s.workers| ==> s.workers[w].phase == Returned || s.workers[w].phase == Raised)
    && (forall t :: 0 <= t < |s.tasks| ==> s.tasks[t].state.Settled?)
  }

  lemma AlwaysInv(trace: seq<System>)
    requires IsRun(trace, Init, Next)
    ensures forall i :: 0 <= i < |trace| ==> Inv(trace[i])
  {
    forall s | Init(s) ensures Inv(s) {
      assert Reserving(s.workers) == {} && Unsettled(s.tasks) == {};
      assert A.Unclaimed([], []) == {};
    }
    forall s, s' | Inv(s) && Next(s, s') ensures Inv(s') {
      var step :| Guard(s, step) && BudgetAllows(s, step) && s' == Apply(s, step);
      StepKeepsInv(s, step);
    }
    InvariantOfRun(trace, Init, Next, Inv);
  }

  /** Permits are conserved across the budget, the workers and the handlers;
      polls plus unfinished handlers never exceed the capacity; no worker exceeds its own limit. */
  lemma WorkersConservePermits(trace: seq<System>, i: nat)
    requires IsRun(trace, Init, Next) && i < |trace|
    ensures var s := trace[i]; var b := s.adm.budget;
      && |b.futures| == |s.adm.calls|
      && b.available + |A.Unclaimed(b.futures, s.adm.calls)| + |Reserving(s.workers)| + |Unsettled(s.tasks)| == b.capacity
      && |PollingWorkers(s)| + |RunningTasks(s)| <= b.capacity
      && forall w :: 0 <= w < |s.workers| ==> |s.workers[w].tasks| <= s.workers[w].limit
  {
    AlwaysInv(trace);
    var s := trace[i];
    assert Inv(s);
    assert PollingWorkers(s) <= Reserving(s.workers);
    assert RunningTasks(s) <= Unsettled(s.tasks);
    SubsetSize(PollingWorkers(s), Reserving(s.workers));
    SubsetSize(RunningTasks(s), Unsettled(s.tasks));
    forall w | 0 <= w < |s.workers| ensures |s.workers[w].tasks| <= s.workers[w].limit {
      assert PhaseInv(s.workers[w]);
    }
  }

  lemma SubsetSize(a: set<nat>, b: set<nat>)
    requires a <= b
    ensures |a| <= |b|
  {
    assert b == a + (b - a);
  }

  /** Once the workers have ended and the callbacks have run, the whole capacity is back. */
  lemma WorkersReturnEveryPermit(trace: seq<System>, i: nat)
    requires IsRun(trace, Init, Next) && i < |trace| && Quiet(trace[i])
    ensures trace[i].adm.budget.available == trace[i].adm.budget.capacity
    ensures trace[i].adm.budget.waiters == [] || trace[i].adm.budget.capacity == 0
  {
    AlwaysInv(trace);
    var s := trace[i];
    assert Inv(s);
    forall w | 0 <= w < |s.workers| ensures s.workers[w].reserved == 0 {
      assert PhaseInv(s.workers[w]);
    }
    assert Reserving(s.workers) == {} && Unsettled(s.tasks) == {};
    forall id | 0 <= id < |s.adm.calls| ensures A.Finished(s.adm.calls[id]) {
      assert !CallOwned(s, id);
    }
    assert A.Unclaimed(s.adm.budget.futures, s.adm.calls) == {};
  }

  /** A worker that returns normally holds a completion receipt for every
      request that its successful polls leased. */
  lemma ReturnedWorkerHasReceipts(trace: seq<System>, i: nat, w: nat, k: nat)
    requires IsRun(trace, Init, Next) && i < |trace|
    requires w < |trace[i].workers| && trace[i].workers[w].phase == Returned
    requires k < |trace[i].workers[w].leased|
    ensures var s := trace[i]; var me := s.workers[w];
      && k < |me.handled| && me.handled[k] < |s.tasks|
      && var task := s.tasks[me.handled[k]];
         && task.request == me.leased[k]
         && !task.state.Running? && task.state.ending.Some? && task.state.ending.value.receipt
  {
    AlwaysInv(trace);
    var s := trace[i];
    assert Inv(s);
    assert LeaseInv(s.workers[w], s.tasks);
    var t := s.workers[w].handled[k];
    assert Succeeded(s.tasks[t]);
    assert H.Inv(s.tasks[t].state.ending.value);
  }

  // ----- what a worker can always do next -----

  /** Every task that the worker still watches ended with a normal return of its handler. */
  ghost predicate AllReturned(s: System, w: nat)
    requires w < |s.workers|
  {
    forall t :: t in s.workers[w].tasks ==>
      && t < |s.tasks| && !s.tasks[t].state.Running?
      && s.tasks[t].state.ending.Some? && s.tasks[t].state.ending.value.main == H.Done(H.Returns)
  }

  /** A step leads the worker to a phase; what it leased stays. */
  ghost predicate Leads(s: System, s': System, w: nat, phase: Phase) {
    && Next(s, s') && w < |s.workers| && w < |s'.workers|
    && s'.workers[w].phase == phase && s'.workers[w].leased == s.workers[w].leased
  }

  lemma StepLeads(s: System, step: Step, w: nat, phase: Phase)
    requires Guard(s, step) && BudgetAllows(s, step) && w < |s.workers|
    requires Apply(s, step).workers[w].phase == phase && Apply(s, step).workers[w].leased == s.workers[w].leased
    ensures Leads(s, Apply(s, step), w, phase)
  {
  }

  /** A gathering worker whose tasks all returned can return, with everything it leased. */
  lemma GatheringWorkerReturns(s: System, w: nat)
    requires w < |s.workers| && s.workers[w].phase == Gathering && AllReturned(s, w)
    ensures exists s' :: Leads(s, s', w, Returned)
  {
    StepLeads(s, GatherReturns(w), w, Returned);
  }

  /** A worker at its loop head that sees the stop event waits for its tasks, and
      returns as soon as they all returned. */
  lemma StoppedWorkerReturns(s: System, w: nat)
    requires w < |s.workers| && s.workers[w].phase == Top && AllReturned(s, w)
    ensures exists s1, s2 :: Leads(s, s1, w, Gathering) && Leads(s1, s2, w, Returned)
  {
    var s1 := Apply(s, SeeStop(w));
    StepLeads(s, SeeStop(w), w, Gathering);
    StepLeads(s1, GatherReturns(w), w, Returned);
    assert Leads(s, s1, w, Gathering) && Leads(s1, Apply(s1, GatherReturns(w)), w, Returned);
  }

  /** A worker interrupted while it waits for a permit fails. */
  lemma InterruptedAcquireFails(trace: seq<System>, i: nat, w: nat)
    requires IsRun(trace, Init, Next) && i < |trace| && w < |trace[i].workers|
    requires trace[i].workers[w].phase.Acquiring? && trace[i].workers[w].phase.call < |trace[i].adm.calls|
    requires trace[i].adm.calls[trace[i].workers[w].phase.call] == A.Waiting
    ensures exists s1, s2 :: Leads(trace[i], s1, w, trace[i].workers[w].phase) && Leads(s1, s2, w, Failing)
  {
    AlwaysInv(trace);
    var s := trace[i];
    var id := s.workers[w].phase.call;
    AwaitEnds(s, w, id, Interrupt(w), A.Raised);
    var s1 := Apply(s, Interrupt(w));
    RefusedAcquire(s1, w, id, false);
    assert Leads(s, s1, w, s.workers[w].phase) && Leads(s1, Apply(s1, EndAcquire(w, false)), w, Failing);
  }

  /** A worker stopped while it waits for a permit goes on to wait for its tasks. */
  lemma StoppedAcquireGathers(trace: seq<System>, i: nat, w: nat)
    requires IsRun(trace, Init, Next) && i < |trace| && w < |trace[i].workers|
    requires trace[i].workers[w].phase.Acquiring? && trace[i].workers[w].phase.call < |trace[i].adm.calls|
    requires trace[i].adm.calls[trace[i].workers[w].phase.call] == A.Waiting
    ensures exists s1, s2 :: Leads(trace[i], s1, w, trace[i].workers[w].phase) && Leads(s1, s2, w, Gathering)
  {
    AlwaysInv(trace);
    var s := trace[i];
    var id := s.workers[w].phase.call;
    AwaitEnds(s, w, id, Wake(w, true), A.StopSeen);
    var s1 := Apply(s, Wake(w, true));
    RefusedAcquire(s1, w, id, false);
    assert Leads(s, s1, w, s.workers[w].phase) && Leads(s1, Apply(s1, EndAcquire(w, false)), w, Gathering);
  }

  /** A stop event and an exception both end the wait for a permit, each for its own reason. */
  lemma AwaitEnds(s: System, w: nat, id: nat, step: Step, reason: A.Reason)
    requires w < |s.workers| && s.workers[w].phase == Acquiring(id) && A.Fifo(s.adm.budget)
    requires |s.adm.calls| == |s.adm.budget.futures| && id < |s.adm.calls| && s.adm.calls[id] == A.Waiting
    requires (step == Wake(w, true) && reason == A.StopSeen) || (step == Interrupt(w) && reason == A.Raised)
    ensures Guard(s, step) && BudgetAllows(s, step)
    ensures var s1 := Apply(s, step);
      && Leads(s, s1, w, s.workers[w].phase) && s1.workers == s.workers && s1.adm.budget == s.adm.budget
      && s1.adm.calls == s.adm.calls[id := A.Cleanup(reason)]
  {
    StepLeads(s, step, w, s.workers[w].phase);
  }

  /** An acquire that is not granted ends the loop: after a stop it waits for its
      tasks, after an exception it fails. */
  lemma RefusedAcquire(s: System, w: nat, id: nat, interrupted: bool)
    requires w < |s.workers| && s.workers[w].phase == Acquiring(id) && A.Fifo(s.adm.budget)
    requires |s.adm.calls| == |s.adm.budget.futures| && id < |s.adm.calls| && s.adm.calls[id].Cleanup?
    requires interrupted || s.adm.calls[id].reason != A.GrantSeen
    ensures Guard(s, EndAcquire(w, interrupted)) && BudgetAllows(s, EndAcquire(w, interrupted))
    ensures Leads(s, Apply(s, EndAcquire(w, interrupted)), w,
                  if !interrupted && s.adm.calls[id] == A.Cleanup(A.StopSeen) then Gathering else Failing)
  {
    A.RefusedCalls(s.adm, id, interrupted);
    assert ApplyBudget(s, EndAcquire(w, interrupted)).calls[id] == A.Refused;
    StepLeads(s, EndAcquire(w, interrupted), w, Apply(s, EndAcquire(w, interrupted)).workers[w].phase);
  }

  /** A cancellation, a task that cannot be created and an answer with more requests
      than were asked for all make the worker fail, and a failing worker raises. */
  lemma FailuresSurface(trace: seq<System>, i: nat, w: nat, requests: seq<nat>)
    requires IsRun(trace, Init, Next) && i < |trace| && w < |trace[i].workers| && |requests| > 1
    ensures var phase := trace[i].workers[w].phase;
      && (phase == Top || phase == Gathering || (phase.Submitting? && phase.remaining != []) ==>
            exists s' :: Leads(trace[i], s', w, Failing))
      && (phase == Polling ==> exists s' :: Next(trace[i], s') && Refuses(trace[i], s', w, requests))
      && (phase == Failing ==> exists s' :: Leads(trace[i], s', w, Raised))
  {
    AlwaysInv(trace);
    var s := trace[i];
    assert PhaseInv(s.workers[w]);
    match s.workers[w].phase
    case Submitting(remaining) =>
      if remaining != [] {
        ReleaseAlwaysAllowed(s, SubmitFails(w));
        StepLeads(s, SubmitFails(w), w, Failing);
      }
    case Polling =>
      ReleaseAlwaysAllowed(s, PollReturns(w, requests));
      assert Refuses(s, Apply(s, PollReturns(w, requests)), w, requests);
    case Failing => StepLeads(s, EndFailing(w), w, Raised);
    case Top => StepLeads(s, Cancel(w), w, Failing);
    case Gathering => StepLeads(s, Cancel(w), w, Failing);
    case _ =>
  }

  ghost predicate Refuses(s: System, s': System, w: nat, requests: seq<nat>) {
    && w < |s.workers| && w < |s'.workers| && s'.workers[w].phase == Failing && s'.workers[w].reserved == 0
    && s'.workers[w].leased == s.workers[w].leased + requests && s'.tasks == s.tasks
  }

  /** A retryable poll error leads back to the loop head, a final one to failure,
      without a permit either way; so does an answer with too many requests. */
  lemma PollErrors(trace: seq<System>, i: nat, w: nat)
    requires IsRun(trace, Init, Next) && i < |trace| && w < |trace[i].workers| && trace[i].workers[w].phase == Polling
    ensures exists s' :: Leads(trace[i], s', w, Top) && s'.workers[w].reserved == 0
    ensures exists s' :: Leads(trace[i], s', w, Failing) && s'.workers[w].reserved == 0
  {
    AlwaysInv(trace);
    var s := trace[i];
    assert Inv(s);
    assert PhaseInv(s.workers[w]);
    ReleaseAlwaysAllowed(s, PollFails(w, false));
    StepLeads(s, PollFails(w, false), w, Top);
    ReleaseAlwaysAllowed(s, PollFails(w, true));
    StepLeads(s, PollFails(w, true), w, Failing);
  }

  /** A failed task that the worker sees makes it fail, at the loop head and while it
      gathers; a task that returned is forgotten. */
  lemma ReapedTasks(s: System, w: nat, t: nat)
    requires w < |s.workers| && s.workers[w].phase == Top && t in s.workers[w].tasks
    requires t < |s.tasks| && !s.tasks[t].state.Running?
    ensures var returned := s.tasks[t].state.ending.Some? && s.tasks[t].state.ending.value.main == H.Done(H.Returns);
      exists s': System :: Leads(s, s', w, if returned then Top else Failing) && s'.workers[w].tasks == s.workers[w].tasks - {t}
  {
    var s' := Apply(s, Reap(w, t));
    StepLeads(s, Reap(w, t), w, s'.workers[w].phase);
    assert Leads(s, s', w, s'.workers[w].phase);
  }

  // ----- one request, from the first permit to the last -----

  const SERVED := H.State(H.Done(H.Returns), H.Ended, true, false, true, None, false)

  function At(available: nat, futures: seq<A.Future>, calls: seq<A.Call>, held: nat, me: Worker, tasks: seq<Task>): System {
    System(A.System(A.Budget(1, available, [], futures), calls, held), [me], tasks)
  }

  lemma IsNext(s: System, step: Step, s': System)
    requires Guard(s, step) && BudgetAllows(s, step) && Apply(s, step) == s'
    ensures Next(s, s')
  {
  }

  lemma AskAndGet(me: Worker)
    requires me.phase == Top && |me.tasks| < me.limit
    ensures var waiting := me.(phase := Acquiring(0));
      && Next(At(1, [], [], 0, me, []), At(0, [A.Granted], [A.Waiting], 0, waiting, []))
      && Next(At(0, [A.Granted], [A.Waiting], 0, waiting, []), At(0, [A.Granted], [A.Cleanup(A.GrantSeen)], 0, waiting, []))
  {
    GrantToOne();
    var waiting := me.(phase := Acquiring(0));
    var s := At(0, [A.Granted], [A.Waiting], 0, waiting, []);
    IsNext(At(1, [], [], 0, me, []), BeginAcquire(0), s);
    IsNext(s, Wake(0, false), At(0, [A.Granted], [A.Cleanup(A.GrantSeen)], 0, waiting, []));
  }

  lemma ClaimAndPoll(me: Worker, r: nat)
    requires me.phase == Acquiring(0) && me.reserved == 0 && me.leased == []
    ensures var polling := me.(phase := Polling, reserved := 1);
      && Next(At(0, [A.Granted], [A.Cleanup(A.GrantSeen)], 0, me, []), At(0, [A.Granted], [A.Claimed], 1, polling, []))
      && Next(At(0, [A.Granted], [A.Claimed], 1, polling, []),
              At(0, [A.Granted], [A.Claimed], 1, polling.(phase := Submitting([r]), leased := [r]), []))
  {
    var polling := me.(phase := Polling, reserved := 1);
    var s := At(0, [A.Granted], [A.Claimed], 1, polling, []);
    IsNext(At(0, [A.Granted], [A.Cleanup(A.GrantSeen)], 0, me, []), EndAcquire(0, false), s);
    assert [] + [r] == [r];
    IsNext(s, PollReturns(0, [r]), At(0, [A.Granted], [A.Claimed], 1, polling.(phase := Submitting([r]), leased := [r]), []));
  }

  lemma SubmitOne(me: Worker, r: nat)
    requires me.phase == Submitting([r]) && me.reserved == 1 && me.tasks == {} && me.handled == []
    ensures Next(At(0, [A.Granted], [A.Claimed], 1, me, []),
                 At(0, [A.Granted], [A.Claimed], 1, me.(phase := Submitting([]), reserved := 0, tasks := {0}, handled := [0]),
                    [Task(0, r, Running)]))
  {
    var s, t := At(0, [A.Granted], [A.Claimed], 1, me, []), Task(0, r, Running);
    var busy := me.(phase := Submitting([]), reserved := 0, tasks := {0}, handled := [0]);
    assert me.tasks + {0} == {0} && me.handled + [0] == [0] && [r][1..] == [];
    assert ApplyWorker(s, Submit(0), s.adm) == busy;
    assert ApplyTasks(s, Submit(0)) == [t];
    assert [me][0 := busy] == [busy];
    IsNext(s, Submit(0), At(0, [A.Granted], [A.Claimed], 1, busy, [t]));
  }

  /** A loop that used its permit gives nothing back and is at its head again. */
  lemma EndSubmitOne(s: System, me: Worker)
    requires s.workers == [me] && me.phase == Submitting([]) && me.reserved == 0
    requires A.Fifo(s.adm.budget) && s.adm.budget.waiters == [] && |s.adm.calls| == |s.adm.budget.futures|
    ensures Next(s, s.(workers := [me.(phase := Top)]))
  {
    var step := EndSubmit(0);
    assert A.Apply(s.adm, A.Release(0)) == s.adm;
    assert ApplyBudget(s, step) == s.adm;
    assert ApplyWorker(s, step, s.adm) == me.(phase := Top);
    assert s.workers[0 := me.(phase := Top)] == [me.(phase := Top)];
    IsNext(s, step, s.(workers := [me.(phase := Top)]));
  }

  lemma StopAndServe(me: Worker, r: nat)
    requires me.phase == Top
    ensures var gathering := me.(phase := Gathering);
      && Next(At(0, [A.Granted], [A.Claimed], 1, me, [Task(0, r, Running)]),
              At(0, [A.Granted], [A.Claimed], 1, gathering, [Task(0, r, Running)]))
      && Next(At(0, [A.Granted], [A.Claimed], 1, gathering, [Task(0, r, Running)]),
              At(0, [A.Granted], [A.Claimed], 1, gathering, [Task(0, r, Ended(Some(SERVED)))]))
  {
    var gathering := me.(phase := Gathering);
    var s := At(0, [A.Granted], [A.Claimed], 1, gathering, [Task(0, r, Running)]);
    IsNext(At(0, [A.Granted], [A.Claimed], 1, me, [Task(0, r, Running)]), SeeStop(0), s);
    IsNext(s, TaskEnds(0, Some(SERVED)), At(0, [A.Granted], [A.Claimed], 1, gathering, [Task(0, r, Ended(Some(SERVED)))]));
  }

  lemma GatherAndReturn(me: Worker, r: nat)
    requires me.phase == Gathering && me.tasks == {0}
    ensures var returned := me.(phase := Returned);
      Next(At(0, [A.Granted], [A.Claimed], 1, me, [Task(0, r, Ended(Some(SERVED)))]),
           At(0, [A.Granted], [A.Claimed], 1, returned, [Task(0, r, Ended(Some(SERVED)))]))
  {
    var s := At(0, [A.Granted], [A.Claimed], 1, me, [Task(0, r, Ended(Some(SERVED)))]);
    IsNext(s, GatherReturns(0), At(0, [A.Granted], [A.Claimed], 1, me.(phase := Returned), s.tasks));
  }

  /** The done-callback of a task gives its permit back. */
  lemma GiveBack(s: System, r: nat, ending: Ending)
    requires s.tasks == [Task(0, r, Ended(ending))] && s.adm.held > 0
    requires A.Fifo(s.adm.budget) && s.adm.budget.waiters == [] && |s.adm.calls| == |s.adm.budget.futures|
    ensures var b := s.adm.budget.(available := s.adm.budget.available + 1);
      Next(s, System(s.adm.(budget := b, held := s.adm.held - 1), s.workers, [Task(0, r, Settled(ending))]))
  {
    var b := s.adm.budget.(available := s.adm.budget.available + 1);
    var adm := s.adm.(budget := b, held := s.adm.held - 1);
    assert A.Apply(s.adm, A.Release(1)) == adm;
    assert ApplyTasks(s, Callback(0)) == [Task(0, r, Settled(ending))];
    IsNext(s, Callback(0), System(adm, s.workers, [Task(0, r, Settled(ending))]));
  }

  lemma GrantToOne()
    ensures A.Fifo(A.Budget(1, 1, [], []))
    ensures A.Drained(A.Queue(A.Budget(1, 1, [], []))) == A.Budget(1, 0, [], [A.Granted])
  {
    var q := A.Budget(1, 1, [0], [A.Pending]);
    assert A.Queue(A.Budget(1, 1, [], [])) == q;
    assert A.GrantHead(q) == A.Budget(1, 0, [], [A.Granted]);
  }

  /** The loop works: one worker over one permit can lease a request, commit it, see the
      stop and return, with a receipt for what it leased and its permit back. */
  lemma OneRequestIsServed(r: nat)
    ensures var me := Worker(1, Top, 0, {}, [], []);
      var start := At(1, [], [], 0, me, []);
      && Init(start) && SERVED.receipt
      && Reaches(start, At(1, [A.Granted], [A.Claimed], 0, Worker(1, Returned, 0, {0}, [r], [0]),
                           [Task(0, r, Settled(Some(SERVED)))]), Next)
  {
    var me := Worker(1, Top, 0, {}, [], []);
    var busy, running := Worker(1, Top, 0, {0}, [r], [0]), [Task(0, r, Running)];
    var got, ended := [A.Claimed], [Task(0, r, Ended(Some(SERVED)))];
    var end := At(1, [A.Granted], got, 0, busy.(phase := Returned), [Task(0, r, Settled(Some(SERVED)))]);
    ReachesItself(end, Next);
    var returned := At(0, [A.Granted], got, 1, busy.(phase := Returned), ended);
    GiveBack(returned, r, Some(SERVED));
    ReachesNext(returned, end, end, Next);
    GatherAndReturn(busy.(phase := Gathering), r);
    ReachesNext(At(0, [A.Granted], got, 1, busy.(phase := Gathering), ended), returned, end, Next);
    StopAndServe(busy, r);
    ReachesNext(At(0, [A.Granted], got, 1, busy.(phase := Gathering), running),
                At(0, [A.Granted], got, 1, busy.(phase := Gathering), ended), end, Next);
    ReachesNext(At(0, [A.Granted], got, 1, busy, running),
                At(0, [A.Granted], got, 1, busy.(phase := Gathering), running), end, Next);
    RequestIsLeased(r, end);
  }

  lemma RequestIsLeased(r: nat, end: System)
    requires Reaches(At(0, [A.Granted], [A.Claimed], 1, Worker(1, Top, 0, {0}, [r], [0]), [Task(0, r, Running)]), end, Next)
    ensures Reaches(At(1, [], [], 0, Worker(1, Top, 0, {}, [], []), []), end, Next)
  {
    var me := Worker(1, Top, 0, {}, [], []);
    var busy, running := Worker(1, Top, 0, {0}, [r], [0]), [Task(0, r, Running)];
    var g, got, asking, cleanup := [A.Granted], [A.Claimed], me.(phase := Acquiring(0)), [A.Cleanup(A.GrantSeen)];
    var polling := me.(phase := Polling, reserved := 1);
    var submitting := polling.(phase := Submitting([r]), leased := [r]);
    var s5 := At(0, g, got, 1, busy.(phase := Submitting([])), running);
    EndSubmitOne(s5, busy.(phase := Submitting([])));
    ReachesNext(s5, At(0, g, got, 1, busy, running), end, Next);
    SubmitOne(submitting, r);
    ReachesNext(At(0, g, got, 1, submitting, []), s5, end, Next);
    ClaimAndPoll(asking, r);
    ReachesNext(At(0, g, got, 1, polling, []), At(0, g, got, 1, submitting, []), end, Next);
    ReachesNext(At(0, g, cleanup, 0, asking, []), At(0, g, got, 1, polling, []), end, Next);
    AskAndGet(me);
    ReachesNext(At(0, g, [A.Waiting], 0, asking, []), At(0, g, cleanup, 0, asking, []), end, Next);
    ReachesNext(At(1, [], [], 0, me, []), At(0, g, [A.Waiting], 0, asking, []), end, Next);
  }
}
