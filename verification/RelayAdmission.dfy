/** The FIFO request budget that all relay workers of one client share
    (src/ucloud_sandboxes_sdk/_relay_admission.py). */
module RelayAdmission {
  import opened Runs

  // The asyncio future of one acquire call. Futures are named by arrival order.
  datatype Future = Pending | Granted | Cancelled

  datatype Budget = Budget(capacity: nat, available: nat, waiters: seq<nat>, futures: seq<Future>)

  /** The deque holds exactly the latest arrivals, in order; everyone who left
      it was granted or cancelled, and nobody in it was granted. */
  ghost predicate Fifo(b: Budget) {
    var left := |b.futures| - |b.waiters|;
    && left >= 0
    && (forall i :: 0 <= i < |b.waiters| ==> b.waiters[i] == left + i)
    && (forall id :: 0 <= id < left ==> b.futures[id] != Pending)
    && (forall id :: left <= id < |b.futures| ==> b.futures[id] != Granted)
  }

  /** No permit idles: either nobody queues, or there is no permit and the head still wants one. */
  ghost predicate Tight(b: Budget)
    requires Fifo(b)
  {
    b.waiters == [] || (b.available == 0 && b.futures[b.waiters[0]] == Pending)
  }

  // ----- the atomic steps of the asyncio budget -----

  /** What one call of `_drain` leaves behind. */
  ghost function Drained(b: Budget): Budget
    requires Fifo(b)
    decreases |b.waiters|
  {
    if b.waiters == [] then b
    else if b.futures[b.waiters[0]] == Cancelled then Drained(DropHead(b))
    else if b.available == 0 then b
    else Drained(GrantHead(b))
  }

  ghost function DropHead(b: Budget): (r: Budget)
    requires Fifo(b) && b.waiters != [] && b.futures[b.waiters[0]] == Cancelled
    ensures Fifo(r)
  {
    b.(waiters := b.waiters[1..])
  }

  ghost function GrantHead(b: Budget): (r: Budget)
    requires Fifo(b) && b.waiters != [] && b.futures[b.waiters[0]] == Pending && b.available > 0
    ensures Fifo(r)
  {
    b.(waiters := b.waiters[1..], available := b.available - 1,
       futures := b.futures[b.waiters[0] := Granted])
  }

  ghost function Queue(b: Budget): (r: Budget)
    requires Fifo(b)
    ensures Fifo(r)
  {
    b.(waiters := b.waiters + [|b.futures|], futures := b.futures + [Pending])
  }

  ghost function Released(b: Budget, count: nat): Budget
    requires Fifo(b)
  {
    Drained(b.(available := b.available + count))
  }

  /** The `finally` of an acquire call that does not claim its permit. */
  ghost function Abandoned(b: Budget, id: nat): Budget
    requires Fifo(b) && id < |b.futures|
  {
    match b.futures[id]
    case Pending => Drained(b.(futures := b.futures[id := Cancelled]))
    case Granted => Released(b, 1)
    case Cancelled => b
  }

  class AsyncRequestBudget {
    const capacity: nat
    var available: nat
    var waiters: seq<nat>
    var futures: seq<Future>

    ghost function Model(): Budget
      reads this
    {
      Budget(capacity, available, waiters, futures)
    }

    constructor (capacity: nat)
      ensures Model() == Budget(capacity, capacity, [], [])
    {
      this.capacity := capacity;
      available, waiters, futures := capacity, [], [];
    }

    method Drain()
      requires Fifo(Model())
      modifies this
      ensures Fifo(Model()) && Model() == Drained(old(Model()))
    {
      while waiters != []
        invariant Fifo(Model()) && Drained(Model()) == Drained(old(Model()))
        decreases |waiters|
      {
        var future := waiters[0];
        if futures[future] == Cancelled {
          waiters := waiters[1..];
          continue;
        }
        if available == 0 {
          return;
        }
        waiters := waiters[1..];
        available := available - 1;
        futures := futures[future := Granted];
      }
    }

    method Release(count: nat)
      requires Fifo(Model())
      modifies this
      ensures Fifo(Model()) && Model() == Released(old(Model()), count)
    {
      available := available + count;
      Drain();
    }

    /** `acquire` up to its first await. */
    method BeginAcquire() returns (future: nat)
      requires Fifo(Model())
      modifies this
      ensures Fifo(Model()) && Model() == Drained(Queue(old(Model())))
      ensures future == |old(futures)| && future < |futures|
    {
      future := |futures|;
      futures := futures + [Pending];
      waiters := waiters + [future];
      DrainResult(Model());
      Drain();
    }

    /** `acquire` after its last await: a stop or an exception gives the permit up. */
    method EndAcquire(future: nat, stopSeen: bool, raised: bool) returns (permits: nat)
      requires Fifo(Model()) && future < |futures|
      requires !stopSeen && !raised ==> futures[future] == Granted
      modifies this
      ensures Fifo(Model())
      ensures permits == (if stopSeen || raised then 0 else 1)
      ensures Model() == if permits == 1 then old(Model()) else Abandoned(old(Model()), future)
    {
      var claimed := !stopSeen && !raised;
      permits := if claimed then 1 else 0;
      if futures[future] == Pending {
        futures := futures[future := Cancelled];
        Drain();
      } else if futures[future] != Cancelled && !claimed {
        Release(1);
      }
    }
  }

  /** Draining keeps the queue order, leaves no permit idle, and touches no
      future that was already granted or cancelled. */
  lemma {:induction false} DrainResult(b: Budget)
    requires Fifo(b)
    ensures var d := Drained(b);
      && Fifo(d) && Tight(d) && d.capacity == b.capacity && |d.futures| == |b.futures|
      && forall id :: 0 <= id < |b.futures| ==>
           d.futures[id] == b.futures[id] || (b.futures[id] == Pending && d.futures[id] == Granted)
    decreases |b.waiters|
  {
    if b.waiters != [] {
      if b.futures[b.waiters[0]] == Cancelled {
        DrainResult(DropHead(b));
      } else if b.available > 0 {
        DrainResult(GrantHead(b));
      }
    }
  }

  // ----- every interleaving of acquire calls, releases, stops and cancellations -----

  // Where an acquire call is suspended. `Cleanup` is the await inside its
  // inner `finally`, entered for one of three reasons.
  datatype Reason = StopSeen | GrantSeen | Raised
  datatype Call = Waiting | Cleanup(reason: Reason) | Claimed | Refused

  // `held` counts permits that acquire returned and release did not give back.
  datatype System = System(budget: Budget, calls: seq<Call>, held: nat)

  datatype Step =
    | Acquire
    | Wake(id: nat, stopped: bool)
    | Interrupt(id: nat)
    | Finish(id: nat, interrupted: bool)
    | Release(count: nat)

  ghost predicate Init(s: System) {
    s == System(Budget(s.budget.capacity, s.budget.capacity, [], []), [], 0)
  }

  ghost predicate Enabled(s: System, step: Step) {
    && Fifo(s.budget) && |s.calls| == |s.budget.futures|
    && match step
       case Acquire => true
       case Wake(id, stopped) =>
         id < |s.calls| && s.calls[id] == Waiting && (stopped || s.budget.futures[id] == Granted)
       case Interrupt(id) => id < |s.calls| && s.calls[id] == Waiting
       case Finish(id, _) => id < |s.calls| && s.calls[id].Cleanup?
       case Release(count) => count <= s.held
  }

  ghost function Apply(s: System, step: Step): System
    requires Enabled(s, step)
  {
    match step
    case Acquire => s.(budget := Drained(Queue(s.budget)), calls := s.calls + [Waiting])
    case Wake(id, stopped) =>
      s.(calls := s.calls[id := Cleanup(if stopped then StopSeen else GrantSeen)])
    case Interrupt(id) => s.(calls := s.calls[id := Cleanup(Raised)])
    case Finish(id, interrupted) =>
      if !interrupted && s.calls[id].reason == GrantSeen then
        s.(calls := s.calls[id := Claimed], held := s.held + 1)
      else
        s.(calls := s.calls[id := Refused], budget := Abandoned(s.budget, id))
    case Release(count) => s.(budget := Released(s.budget, count), held := s.held - count)
  }

  ghost predicate Next(s: System, s': System) {
    exists step :: Enabled(s, step) && s' == Apply(s, step)
  }

  ghost function Finished(c: Call): bool { c == Claimed || c == Refused }

  /** Permits granted to calls that have not returned yet. */
  ghost function Unclaimed(futures: seq<Future>, calls: seq<Call>): set<nat>
    requires |futures| == |calls|
  {
    set id | 0 <= id < |futures| && futures[id] == Granted && !Finished(calls[id])
  }

  ghost predicate CallsMatch(futures: seq<Future>, calls: seq<Call>) {
    && |futures| == |calls|
    && forall id :: 0 <= id < |calls| ==>
         && (!Finished(calls[id]) ==> futures[id] != Cancelled)
         && (Finished(calls[id]) ==> futures[id] != Pending)
         && (calls[id] == Cleanup(GrantSeen) || calls[id] == Claimed ==> futures[id] == Granted)
  }

  ghost predicate Inv(s: System) {
    && Fifo(s.budget) && Tight(s.budget)
    && CallsMatch(s.budget.futures, s.calls)
    && s.budget.available + |Unclaimed(s.budget.futures, s.calls)| + s.held == s.budget.capacity
  }

  /** Draining turns available permits into granted ones, one for one. */
  lemma {:induction false} DrainConserves(b: Budget, calls: seq<Call>)
    requires Fifo(b) && CallsMatch(b.futures, calls)
    ensures var d := Drained(b);
      && Fifo(d) && CallsMatch(d.futures, calls)
      && d.available + |Unclaimed(d.futures, calls)| == b.available + |Unclaimed(b.futures, calls)|
    decreases |b.waiters|
  {
    if b.waiters != [] {
      var head := b.waiters[0];
      if b.futures[head] == Cancelled {
        DrainConserves(DropHead(b), calls);
      } else if b.available > 0 {
        var g := GrantHead(b);
        assert Unclaimed(g.futures, calls) == Unclaimed(b.futures, calls) + {head};
        DrainConserves(g, calls);
      }
    }
  }

  lemma AcquireKeepsInv(s: System)
    requires Inv(s)
    ensures Inv(Apply(s, Acquire))
  {
    var q, calls := Queue(s.budget), s.calls + [Waiting];
    assert Unclaimed(q.futures, calls) == Unclaimed(s.budget.futures, s.calls);
    DrainResult(q);
    DrainConserves(q, calls);
  }

  lemma ClaimKeepsInv(s: System, id: nat)
    requires Inv(s) && id < |s.calls| && s.calls[id] == Cleanup(GrantSeen)
    ensures Inv(s.(calls := s.calls[id := Claimed], held := s.held + 1))
  {
    var calls := s.calls[id := Claimed];
    assert Unclaimed(s.budget.futures, calls) == Unclaimed(s.budget.futures, s.calls) - {id};
    assert id in Unclaimed(s.budget.futures, s.calls);
  }

  /** A call that gives up returns the permit it may have been granted meanwhile. */
  lemma AbandonKeepsInv(s: System, id: nat)
    requires Inv(s) && id < |s.calls| && s.calls[id].Cleanup?
    ensures Inv(s.(calls := s.calls[id := Refused], budget := Abandoned(s.budget, id)))
  {
    var b, calls := s.budget, s.calls[id := Refused];
    var freed := if b.futures[id] == Pending then b.(futures := b.futures[id := Cancelled])
                 else b.(available := b.available + 1);
    if b.futures[id] == Pending {
      assert Unclaimed(freed.futures, calls) == Unclaimed(b.futures, s.calls);
    } else {
      assert id in Unclaimed(b.futures, s.calls);
      assert Unclaimed(freed.futures, calls) == Unclaimed(b.futures, s.calls) - {id};
    }
    DrainResult(freed);
    DrainConserves(freed, calls);
  }

  /** A call that is woken or interrupted keeps what it was granted. */
  lemma CleanupKeepsInv(s: System, id: nat, reason: Reason)
    requires Inv(s) && id < |s.calls| && s.calls[id] == Waiting
    requires reason == GrantSeen ==> s.budget.futures[id] == Granted
    ensures Inv(s.(calls := s.calls[id := Cleanup(reason)]))
  {
    assert Unclaimed(s.budget.futures, s.calls[id := Cleanup(reason)]) == Unclaimed(s.budget.futures, s.calls);
  }

  lemma ReleaseKeepsInv(s: System, count: nat)
    requires Inv(s) && count <= s.held
    ensures Inv(s.(budget := Released(s.budget, count), held := s.held - count))
  {
    var b := s.budget.(available := s.budget.available + count);
    DrainResult(b);
    DrainConserves(b, s.calls);
  }

  lemma StepKeepsInv(s: System, step: Step)
    requires Inv(s) && Enabled(s, step)
    ensures Inv(Apply(s, step))
  {
    match step
    case Acquire => AcquireKeepsInv(s);
    case Wake(id, stopped) => CleanupKeepsInv(s, id, if stopped then StopSeen else GrantSeen);
    case Interrupt(id) => CleanupKeepsInv(s, id, Raised);
    case Finish(id, interrupted) =>
      if !interrupted && s.calls[id].reason == GrantSeen {
        ClaimKeepsInv(s, id);
      } else {
        AbandonKeepsInv(s, id);
      }
    case Release(count) => ReleaseKeepsInv(s, count);
  }

  /** At every moment of every run: permits are conserved, none idles while
      somebody queues, and nobody was granted ahead of an earlier arrival that still waits. */
  lemma BudgetRuns(trace: seq<System>, i: nat)
    requires IsRun(trace, Init, Next) && i < |trace|
    ensures var s := trace[i]; var b := s.budget;
      && |b.futures| == |s.calls|
      && b.available + |Unclaimed(b.futures, s.calls)| + s.held == b.capacity
      && (b.waiters == [] || (b.available == 0 && b.waiters[0] < |b.futures| && b.futures[b.waiters[0]] == Pending))
      && (forall early, late :: 0 <= early < late < |b.futures| && b.futures[late] == Granted
            ==> b.futures[early] != Pending)
  {
    forall s | Init(s) ensures Inv(s) {
      assert Unclaimed([], []) == {};
    }
    forall s, s' | Inv(s) && Next(s, s') ensures Inv(s') {
      var step :| Enabled(s, step) && s' == Apply(s, step);
      StepKeepsInv(s, step);
    }
    InvariantOfRun(trace, Init, Next, Inv);
  }

  // ----- what a call comes to -----

  /** A granted call that neither was stopped nor is interrupted claims its permit:
      it can be woken, and then return. */
  lemma GrantedCallClaims(s: System, id: nat)
    requires Inv(s) && id < |s.calls| && s.calls[id] == Waiting && s.budget.futures[id] == Granted
    ensures exists s1, s2 :: Next(s, s1) && Next(s1, s2) && s2.calls == s.calls[id := Claimed] && s2.held == s.held + 1
  {
    var s1 := Apply(s, Wake(id, false));
    var s2 := Apply(s1, Finish(id, false));
    assert Enabled(s, Wake(id, false)) && Enabled(s1, Finish(id, false));
    assert s2.calls == s.calls[id := Claimed];
    assert Next(s, s1) && Next(s1, s2);
  }

  /** Every other call that returns is refused, and leaves no permit with its caller. */
  lemma RefusedCalls(s: System, id: nat, interrupted: bool)
    requires Fifo(s.budget) && |s.calls| == |s.budget.futures| && id < |s.calls| && s.calls[id].Cleanup?
    requires interrupted || s.calls[id].reason != GrantSeen
    ensures Enabled(s, Finish(id, interrupted))
    ensures Apply(s, Finish(id, interrupted)).calls == s.calls[id := Refused] && Apply(s, Finish(id, interrupted)).held == s.held
  {
  }

  ghost predicate HeadIsServed(s: System, s': System) {
    && Next(s, s') && s.budget.waiters != [] && s.budget.waiters[0] < |s'.budget.futures|
    && s'.held == s.held - 1 && s'.calls == s.calls
    && s'.budget.futures[s.budget.waiters[0]] == Granted && s'.budget.available == 0
  }

  /** A released permit is granted to the longest waiting call at once. */
  lemma ReleaseGrantsTheHead(s: System)
    requires Inv(s) && s.budget.waiters != [] && s.held > 0
    ensures exists s' :: HeadIsServed(s, s')
  {
    var s' := Apply(s, Release(1));
    assert Enabled(s, Release(1)) && Next(s, s');
    var b := s.budget.(available := s.budget.available + 1);
    assert Drained(b) == Drained(GrantHead(b));
    DrainResult(GrantHead(b));
    OnePermitIsUsedUp(GrantHead(b));
    assert HeadIsServed(s, s');
  }

  lemma {:induction false} OnePermitIsUsedUp(b: Budget)
    requires Fifo(b) && b.available == 0
    ensures Drained(b).available == 0
    decreases |b.waiters|
  {
    if b.waiters != [] && b.futures[b.waiters[0]] == Cancelled {
      OnePermitIsUsedUp(DropHead(b));
    }
  }
}
