/** The request budget of the threaded relay client: tickets under one
    condition lock (src/ucloud_sandboxes_sdk/_relay_admission.py). */
module SyncAdmission {
  import opened Runs

  // Tickets are numbered by arrival. `taken` lists the tickets that got a
  // permit, in order; `held` counts permits not yet given back.
  datatype State = State(
    capacity: nat, available: nat, waiters: seq<nat>, arrivals: nat, taken: seq<nat>, held: nat)

  // A step is one stretch under the lock: an arrival, one turn of a waiter's
  // loop (with what its stop event says), or a release.
  datatype Step = Arrive | Look(ticket: nat, stopped: bool) | Release(count: nat)

  function Without(s: seq<nat>, x: nat): seq<nat> {
    if s == [] then [] else if s[0] == x then s[1..] else [s[0]] + Without(s[1..], x)
  }

  ghost predicate Enabled(s: State, step: Step) {
    match step
    case Arrive => true
    case Look(ticket, _) => ticket in s.waiters
    case Release(count) => count <= s.held
  }

  predicate Grants(s: State, ticket: nat, stopped: bool) {
    !stopped && s.waiters != [] && s.waiters[0] == ticket && s.available > 0
  }

  ghost function Apply(s: State, step: Step): State
    requires Enabled(s, step)
  {
    match step
    case Arrive => s.(waiters := s.waiters + [s.arrivals], arrivals := s.arrivals + 1)
    case Look(ticket, stopped) =>
      if Grants(s, ticket, stopped) then
        s.(available := s.available - 1, waiters := Without(s.waiters, ticket),
           taken := s.taken + [ticket], held := s.held + 1)
      else if stopped then s.(waiters := Without(s.waiters, ticket))
      else s
    case Release(count) => s.(available := s.available + count, held := s.held - count)
  }

  class SyncRequestBudget {
    const capacity: nat
    var available: nat
    var waiters: seq<nat>
    var arrivals: nat
    ghost var taken: seq<nat>
    ghost var held: nat

    ghost function Model(): State
      reads this
    {
      State(capacity, available, waiters, arrivals, taken, held)
    }

    constructor (capacity: nat)
      ensures Model() == State(capacity, capacity, [], 0, [], 0)
    {
      this.capacity := capacity;
      available, waiters, arrivals, taken, held := capacity, [], 0, [], 0;
    }

    method Arrive() returns (ticket: nat)
      modifies this
      ensures ticket == old(arrivals) && Model() == Apply(old(Model()), Step.Arrive)
    {
      ticket := arrivals;
      waiters, arrivals := waiters + [ticket], arrivals + 1;
    }

    /** One turn of the loop in `acquire`; `permits` is what it returns, if it does. */
    method Look(ticket: nat, stopped: bool) returns (returned: bool, permits: nat)
      requires ticket in waiters
      modifies this
      ensures Model() == Apply(old(Model()), Step.Look(ticket, stopped))
      ensures permits == if Grants(old(Model()), ticket, stopped) then 1 else 0
      ensures returned <==> stopped || permits == 1
    {
      returned, permits := stopped, 0;
      if !stopped && waiters[0] == ticket && available > 0 {
        available := available - 1;
        returned, permits := true, 1;
        taken, held := taken + [ticket], held + 1;
      }
      if returned {
        waiters := Without(waiters, ticket);
      }
    }

    method Release(count: nat)
      requires count <= held
      modifies this
      ensures Model() == Apply(old(Model()), Step.Release(count))
    {
      available, held := available + count, held - count;
    }
  }

  ghost predicate Init(s: State) { s == State(s.capacity, s.capacity, [], 0, [], 0) }

  ghost predicate Next(s: State, s': State) {
    exists step :: Enabled(s, step) && s' == Apply(s, step)
  }

  ghost predicate Increasing(s: seq<nat>) { forall i, j :: 0 <= i < j < |s| ==> s[i] < s[j] }

  ghost predicate Inv(s: State) {
    && s.available + s.held == s.capacity
    && Increasing(s.waiters) && Increasing(s.taken)
    && (forall t :: t in s.waiters ==> t < s.arrivals)
    && (forall t :: t in s.taken ==> t < s.arrivals)
    && (forall t, w :: t in s.taken && w in s.waiters ==> t < w)
  }

  lemma IncreasingFrom(first: nat, rest: seq<nat>)
    requires Increasing(rest) && forall y :: y in rest ==> first < y
    ensures Increasing([first] + rest)
  {
    var s := [first] + rest;
    forall i, j | 0 <= i < j < |s| ensures s[i] < s[j] {
      assert s[j] == rest[j - 1] && s[j] in rest;
    }
  }

  lemma FirstIsLeast(s: seq<nat>)
    requires Increasing(s) && s != []
    ensures Increasing(s[1..]) && forall y :: y in s[1..] ==> s[0] < y
    ensures forall y :: y in s <==> y == s[0] || y in s[1..]
  {
    assert s == [s[0]] + s[1..];
  }

  lemma {:induction false} WithoutKeepsOrder(s: seq<nat>, x: nat)
    requires Increasing(s)
    ensures Increasing(Without(s, x)) && forall y :: y in Without(s, x) <==> y in s && y != x
  {
    if s != [] {
      FirstIsLeast(s);
      if s[0] != x {
        WithoutKeepsOrder(s[1..], x);
        IncreasingFrom(s[0], Without(s[1..], x));
      }
    }
  }

  lemma StepKeepsInv(s: State, step: Step)
    requires Inv(s) && Enabled(s, step)
    ensures Inv(Apply(s, step))
  {
    match step
    case Arrive => AppendKeepsOrder(s.waiters, s.arrivals);
    case Look(ticket, stopped) =>
      WithoutKeepsOrder(s.waiters, ticket);
      if Grants(s, ticket, stopped) {
        forall w | w in s.waiters && w != ticket ensures ticket < w {
          var k :| 0 <= k < |s.waiters| && s.waiters[k] == w;
        }
        assert ticket in s.waiters;
        AppendKeepsOrder(s.taken, ticket);
      }
    case Release(_) =>
  }

  lemma AppendKeepsOrder(s: seq<nat>, x: nat)
    requires Increasing(s) && forall y :: y in s ==> y < x
    ensures Increasing(s + [x]) && forall y :: y in s + [x] <==> y in s || y == x
  {
    forall i, j | 0 <= i < j < |s + [x]| ensures (s + [x])[i] < (s + [x])[j] {
      assert s[i] in s;
    }
  }

  /** Over every interleaving of the threads: permits are conserved, and they
      are granted strictly in the order of arrival, past nobody who still waits. */
  lemma SyncBudgetRuns(trace: seq<State>, i: nat)
    requires IsRun(trace, Init, Next) && i < |trace|
    ensures var s := trace[i];
      && s.available + s.held == s.capacity
      && Increasing(s.taken) && (forall t, w :: t in s.taken && w in s.waiters ==> t < w)
  {
    forall s, s' | Inv(s) && Next(s, s') ensures Inv(s') {
      var step :| Enabled(s, step) && s' == Apply(s, step);
      StepKeepsInv(s, step);
    }
    InvariantOfRun(trace, Init, Next, Inv);
    assert Inv(trace[i]);
  }

  /** No permit idles for good: whenever one is free and somebody waits, the
      first waiter's next turn takes it unless it was stopped. */
  lemma FirstWaiterIsServed(trace: seq<State>, i: nat)
    requires IsRun(trace, Init, Next) && i < |trace|
    requires trace[i].available > 0 && trace[i].waiters != []
    ensures var s := trace[i]; var head := s.waiters[0];
      && Enabled(s, Look(head, false))
      && Apply(s, Look(head, false)).taken == s.taken + [head]
      && head !in Apply(s, Look(head, false)).waiters
      && Apply(s, Look(head, true)).available == s.available
  {
    forall s, s' | Inv(s) && Next(s, s') ensures Inv(s') {
      var step :| Enabled(s, step) && s' == Apply(s, step);
      StepKeepsInv(s, step);
    }
    InvariantOfRun(trace, Init, Next, Inv);
    assert Inv(trace[i]);
    WithoutKeepsOrder(trace[i].waiters, trace[i].waiters[0]);
  }

  /** With one permit, a second thread is served when the first gives its permit back. */
  lemma PermitIsHandedOn()
    ensures Init(State(1, 1, [], 0, [], 0))
    ensures Reaches(State(1, 1, [], 0, [], 0), State(1, 0, [], 2, [0, 1], 1), Next)
  {
    var end := State(1, 0, [], 2, [0, 1], 1);
    ReachesItself(end, Next);
    assert Without([1], 1) == [] && [0] + [1] == [0, 1];
    ReachesStep(State(1, 1, [1], 2, [0], 0), Look(1, false), end, end);
    ReachesStep(State(1, 0, [1], 2, [0], 1), Release(1), State(1, 1, [1], 2, [0], 0), end);
    assert Without([0, 1], 0) == [1] && [] + [0] == [0];
    ReachesStep(State(1, 1, [0, 1], 2, [], 0), Look(0, false), State(1, 0, [1], 2, [0], 1), end);
    assert [0] + [1] == [0, 1] && [] + [0] == [0];
    ReachesStep(State(1, 1, [0], 1, [], 0), Arrive, State(1, 1, [0, 1], 2, [], 0), end);
    ReachesStep(State(1, 1, [], 0, [], 0), Arrive, State(1, 1, [0], 1, [], 0), end);
  }

  lemma ReachesStep(s: State, step: Step, m: State, end: State)
    requires Enabled(s, step) && Apply(s, step) == m && Reaches(m, end, Next)
    ensures Reaches(s, end, Next)
  {
    ReachesNext(s, m, end, Next);
  }
}
