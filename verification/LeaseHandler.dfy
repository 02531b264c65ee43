/** One leased request: the handler coroutine running beside its lease renewer
    (src/ucloud_sandboxes_sdk/relay.py). */
module LeaseHandler {
  import opened Prelude
  import opened Runs

  // `completed` says the body's error text is "request is already completed".
  datatype Error =
    | Relay(status: Option<nat>, retryable: Option<bool>, completed: bool)
    | Other
    | CancelledError

  predicate IsRetryable(e: Error)
    requires e.Relay?
  {
    if e.status.Some? && e.status.value in {400, 401, 403, 404, 409, 410, 422} then false
    else if e.retryable.Some? then e.retryable.value
    else e.status.None? || e.status.value in {408, 425, 429, 500, 502, 503, 504}
  }

  predicate AlreadyCompleted(e: Error) {
    e.Relay? && e.status == Some(410) && e.completed
  }

  // ----- commit_response_bytes_to: one result, sent until it is accepted -----

  /** Anything but a retryable relay error, a cancellation included, ends the sending at once. */
  predicate Repeats(e: Error) { e.Relay? && IsRetryable(e) }

  /** Sending one result takes the answers of the relay in turn. */
  method CommitResponseBytes(attempts: int, answer: nat -> Result<nat, Error>)
      returns (result: Result<nat, Error>, sent: nat)
    ensures 1 <= sent <= (if attempts < 1 then 1 else attempts) && result == answer(sent - 1)
    ensures forall k :: 0 <= k < sent - 1 ==> answer(k).Err? && Repeats(answer(k).error)
    ensures result.Err? ==> !Repeats(result.error) || sent == (if attempts < 1 then 1 else attempts)
  {
    var limit := if attempts < 1 then 1 else attempts;
    var attempt := 0;
    while attempt < limit
      invariant 0 <= attempt < limit
      invariant forall k :: 0 <= k < attempt ==> answer(k).Err? && Repeats(answer(k).error)
      decreases limit - attempt
    {
      result, sent := answer(attempt), attempt + 1;
      if result.Ok? || !Repeats(result.error) || attempt + 1 >= limit {
        return;
      }
      attempt := attempt + 1;
    }
  }

  // ----- every interleaving of the handler and its renewer -----

  datatype Outcome = Returns | Raises(error: Error)

  // `Closing` awaits the cancelled renewer after a failure; `Awaiting` awaits
  // the stopped renewer after a commit.
  datatype Main =
    | Handling
    | Committing
    | ErrorCommitting
    | Closing(error: Error)
    | Awaiting
    | Done(outcome: Outcome)

  datatype Renewer = Sleeping | Renewing | Ended | Failed(error: Error) | Killed

  datatype State = State(
    main: Main,
    renewer: Renewer,
    stop: bool,                // the stop event both coroutines share
    killAsked: bool,           // renewer.cancel() was called
    receipt: bool,             // a completion receipt was obtained
    failure: Option<Error>,    // what the handler or its commit raised
    cutShort: bool)            // cancelled while its cleanup await was pending or ready

  datatype Step =
    | HandlerReturns
    | HandlerRaises(error: Error)
    | CommitReturns
    | CommitRaises(error: Error)
    | CancelClosing
    | CancelAwaiting
    | FinishClosing
    | FinishAwaiting
    | TimerFires
    | RenewReturns
    | RenewRaises(error: Error)
    | RenewerStops
    | RenewerDies

  predicate RenewerOver(r: Renewer) { r.Ended? || r.Failed? || r.Killed? }

  // A streaming or forwarded request has no handler step before its commit.
  ghost predicate Init(s: State) {
    s == State(Handling, Sleeping, false, false, false, None, false)
    || s == State(Committing, Sleeping, false, false, false, None, false)
  }

  ghost predicate Enabled(s: State, step: Step) {
    match step
    case HandlerReturns => s.main == Handling
    case HandlerRaises(_) => s.main == Handling
    case CommitReturns => s.main == Committing || s.main == ErrorCommitting
    case CommitRaises(_) => s.main == Committing || s.main == ErrorCommitting
    case CancelClosing => s.main.Closing?
    case CancelAwaiting => s.main == Awaiting
    case FinishClosing => s.main.Closing? && RenewerOver(s.renewer)
    case FinishAwaiting => s.main == Awaiting && RenewerOver(s.renewer)
    case TimerFires => s.renewer == Sleeping && !s.stop
    case RenewReturns => s.renewer == Renewing
    case RenewRaises(e) => s.renewer == Renewing && e != CancelledError
    case RenewerStops => s.renewer == Sleeping && s.stop
    case RenewerDies => s.killAsked && !RenewerOver(s.renewer)
  }

  ghost function Close(s: State, e: Error): State {
    s.(main := Closing(e), stop := true, killAsked := true, failure := Some(e))
  }

  ghost function Apply(s: State, step: Step): State
    requires Enabled(s, step)
  {
    match step
    case HandlerReturns => s.(main := Committing)
    case HandlerRaises(e) => if e == Other then s.(main := ErrorCommitting) else Close(s, e)
    case CommitReturns => s.(main := Awaiting, stop := true, receipt := true)
    case CommitRaises(e) =>
      if e == Other && s.main == Committing then s.(main := ErrorCommitting) else Close(s, e)
    case CancelClosing => s.(main := Done(Raises(CancelledError)), cutShort := true)
    case CancelAwaiting =>
      if RenewerOver(s.renewer) then s.(main := Done(Raises(CancelledError)), cutShort := true)
      else s.(killAsked := true)
    case FinishClosing => s.(main := Done(Raises(s.main.error)))
    case FinishAwaiting => s.(main := Done(
        match s.renewer
        case Failed(e) => if AlreadyCompleted(e) then Returns else Raises(e)
        case Killed => Raises(CancelledError)
        case _ => Returns))
    case TimerFires => s.(renewer := Renewing)
    case RenewReturns => s.(renewer := Sleeping)
    case RenewRaises(e) => s.(renewer := if e.Relay? && IsRetryable(e) then Sleeping else Failed(e))
    case RenewerStops => s.(renewer := Ended)
    case RenewerDies => s.(renewer := Killed)
  }

  ghost predicate Next(s: State, s': State) {
    exists step :: Enabled(s, step) && s' == Apply(s, step)
  }

  /** What an outcome means: it names the failure that decided it. */
  ghost predicate Explained(s: State)
    requires s.main.Done?
  {
    var o := s.main.outcome;
    && s.stop
    && (s.cutShort ==> o == Raises(CancelledError))
    && (!s.cutShort ==>
          && RenewerOver(s.renewer)
          && (s.failure.Some? ==> o == Raises(s.failure.value))
          && (s.failure.None? ==>
                && (o == Returns <==> s.renewer == Ended || (s.renewer.Failed? && AlreadyCompleted(s.renewer.error)))
                && (o.Raises? ==> s.renewer == Failed(o.error) || (s.renewer == Killed && o.error == CancelledError))))
  }

  ghost predicate Inv(s: State) {
    && (s.failure.Some? <==> s.main.Closing? || (s.main.Done? && !s.receipt))
    && (s.receipt <==> s.main == Awaiting || (s.main.Done? && s.failure.None?))
    && (s.main.Closing? ==> s.failure == Some(s.main.error))
    && (s.stop <==> s.main.Closing? || s.main == Awaiting || s.main.Done?)
    && (s.killAsked ==> s.stop)
    && (s.renewer == Killed ==> s.killAsked)
    && (s.renewer.Failed? && s.renewer.error.Relay? ==> !IsRetryable(s.renewer.error))
    && (s.cutShort ==> s.main.Done?)
    && (s.main.Done? ==> Explained(s))
  }

  lemma StepKeepsInv(s: State, step: Step)
    requires Inv(s) && Enabled(s, step)
    ensures Inv(Apply(s, step))
  {
    match step
    case HandlerReturns =>
    case HandlerRaises(e) =>
    case CommitReturns =>
    case CommitRaises(e) =>
    case CancelClosing =>
    case CancelAwaiting =>
    case FinishClosing =>
    case FinishAwaiting =>
    case TimerFires =>
    case RenewReturns =>
    case RenewRaises(e) =>
    case RenewerStops =>
    case RenewerDies =>
  }

  /** Over every interleaving: a normal return has a receipt; a handler or
      commit failure is the one raised (unless a cancellation of the cleanup
      itself replaces it); a renewal failure surfaces only after a commit, is never a retryable
      one, and never the relay's "already completed" answer. */
  lemma HandlerRuns(trace: seq<State>, i: nat)
    requires IsRun(trace, Init, Next) && i < |trace| && trace[i].main.Done?
    ensures Inv(trace[i]) && Explained(trace[i])
    ensures trace[i].main.outcome == Returns ==> trace[i].receipt
    ensures var s := trace[i];
      s.main.outcome.Raises? && s.main.outcome.error.Relay? && s.failure.None? ==>
        s.receipt && !IsRetryable(s.main.outcome.error) && !AlreadyCompleted(s.main.outcome.error)
  {
    forall s, s' | Inv(s) && Next(s, s') ensures Inv(s') {
      var step :| Enabled(s, step) && s' == Apply(s, step);
      StepKeepsInv(s, step);
    }
    InvariantOfRun(trace, Init, Next, Inv);
    assert Inv(trace[i]);
  }

  // ----- what the handler comes to -----

  /** The relay's verdicts: seven statuses are final whatever the error says; then
      its own flag decides; then its status, an error without one being retryable. */
  lemma RetryRule(status: Option<nat>, flag: Option<bool>, completed: bool)
    ensures var e := Relay(status, flag, completed);
      (IsRetryable(e) <==> Repeats(e)) && !Repeats(Other) && !Repeats(CancelledError)
    ensures var e := Relay(status, flag, completed);
      IsRetryable(e) <==>
        && status !in {Some(400), Some(401), Some(403), Some(404), Some(409), Some(410), Some(422)}
        && (flag == Some(true)
            || (flag == None
                && status in {None, Some(408), Some(425), Some(429), Some(500), Some(502), Some(503), Some(504)}))
  {
    if status.Some? {
      assert forall n :: status == Some(n) <==> status.value == n;
    }
  }

  lemma MoveTo(s: State, step: Step, m: State, end: State)
    requires Enabled(s, step) && Apply(s, step) == m && Reaches(m, end, Next)
    ensures Reaches(s, end, Next)
  {
    ReachesNext(s, m, end, Next);
  }

  /** A handled request can be committed and end normally, its lease renewed meanwhile;
      so can a streaming or forwarded one, which begins with its commit. */
  lemma RequestIsServed()
    ensures var handling := State(Handling, Sleeping, false, false, false, None, false);
      var end := State(Done(Returns), Ended, true, false, true, None, false);
      && Init(handling) && Reaches(handling.(renewer := Renewing), end, Next) && Next(handling, handling.(renewer := Renewing))
      && Init(handling.(main := Committing)) && Reaches(handling.(main := Committing), end, Next)
  {
    var handling := State(Handling, Sleeping, false, false, false, None, false);
    var end := State(Done(Returns), Ended, true, false, true, None, false);
    var committed := State(Awaiting, Sleeping, true, false, true, None, false);
    ReachesItself(end, Next);
    MoveTo(committed.(renewer := Ended), FinishAwaiting, end, end);
    MoveTo(committed, RenewerStops, committed.(renewer := Ended), end);
    MoveTo(handling.(main := Committing), CommitReturns, committed, end);
    MoveTo(handling, HandlerReturns, handling.(main := Committing), end);
    MoveTo(handling.(renewer := Renewing), RenewReturns, handling, end);
    assert Enabled(handling, TimerFires) && Next(handling, Apply(handling, TimerFires));
  }

  /** An ordinary exception of the handler, or of committing its result, is committed
      as an error answer; any other failure, and any failure of that commit, ends the
      request with itself. */
  lemma FailureMoves(s: State, e: Error)
    requires s.main == Handling || s.main == Committing || s.main == ErrorCommitting
    ensures Next(s, if e == Other && s.main != ErrorCommitting then s.(main := ErrorCommitting)
                    else s.(main := Closing(e), stop := true, killAsked := true, failure := Some(e)))
    ensures s.main != Handling ==> Next(s, s.(main := Awaiting, stop := true, receipt := true))
  {
    var step := if s.main == Handling then HandlerRaises(e) else CommitRaises(e);
    assert Enabled(s, step) && Next(s, Apply(s, step));
    if s.main != Handling {
      assert Enabled(s, CommitReturns) && Next(s, Apply(s, CommitReturns));
    }
  }

  /** A retryable renewal error is waited out, any other ends the renewer with it. */
  lemma RenewalMoves(s: State, e: Error)
    requires s.renewer == Renewing && e != CancelledError
    ensures Next(s, s.(renewer := if e.Relay? && IsRetryable(e) then Sleeping else Renewer.Failed(e)))
  {
    assert Enabled(s, RenewRaises(e)) && Next(s, Apply(s, RenewRaises(e)));
  }

  /** After a commit, a renewal error surfaces, unless it says that the request is
      already completed. */
  lemma RenewalFailureSurfaces(s: State, e: Error)
    requires s.main == Awaiting && s.renewer == Renewer.Failed(e)
    ensures Next(s, s.(main := Done(if e.Relay? && e.status == Some(410) && e.completed then Returns else Raises(e))))
  {
    assert Enabled(s, FinishAwaiting) && Next(s, Apply(s, FinishAwaiting));
  }

  /** A cancellation replaces the outcome of a cleanup that is pending or over; one that
      finds the renewer still running kills it first. A killed renewer dies at its next
      await, and the cancellation surfaces. */
  lemma CancellationMoves(s: State)
    ensures s.main.Closing? || (s.main == Awaiting && RenewerOver(s.renewer)) ==>
      Next(s, s.(main := Done(Raises(CancelledError)), cutShort := true))
    ensures s.main == Awaiting && !RenewerOver(s.renewer) ==> Next(s, s.(killAsked := true))
    ensures s.killAsked && !RenewerOver(s.renewer) ==> Next(s, s.(renewer := Killed))
    ensures s.main == Awaiting && s.renewer == Killed ==> Next(s, s.(main := Done(Raises(CancelledError))))
    ensures s.main.Closing? && RenewerOver(s.renewer) ==> Next(s, s.(main := Done(Raises(s.main.error))))
  {
    if s.main.Closing? {
      assert Enabled(s, CancelClosing) && Next(s, Apply(s, CancelClosing));
      if RenewerOver(s.renewer) {
        assert Enabled(s, FinishClosing) && Next(s, Apply(s, FinishClosing));
      }
    } else if s.main == Awaiting {
      assert Enabled(s, CancelAwaiting) && Next(s, Apply(s, CancelAwaiting));
      if s.renewer == Killed {
        assert Enabled(s, FinishAwaiting) && Next(s, Apply(s, FinishAwaiting));
      }
    }
    if s.killAsked && !RenewerOver(s.renewer) {
      assert Enabled(s, RenewerDies) && Next(s, Apply(s, RenewerDies));
    }
  }

  /** Once it is stopped, a renewer that waits for its next turn renews no more. */
  lemma StoppedRenewerEnds(s: State, s': State)
    requires s.stop && (s.renewer == Sleeping || RenewerOver(s.renewer)) && Next(s, s')
    ensures s'.stop && (s'.renewer == s.renewer || s'.renewer == Ended || s'.renewer == Killed)
    ensures RenewerOver(s.renewer) ==> s'.renewer == s.renewer
    ensures s.renewer == Sleeping ==> Next(s, s.(renewer := Ended))
  {
    if s.renewer == Sleeping {
      assert Enabled(s, RenewerStops) && Next(s, Apply(s, RenewerStops));
    }
  }
}
