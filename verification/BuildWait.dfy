/** Waiting for one image build through status reads that may fail
    (src/ucloud_sandboxes_sdk/client.py). */
module BuildWait {
  import opened Prelude

  datatype Build = Build(terminal: bool, text: string)

  // An API error with its status and cause, or an OSError of the poll itself.
  datatype PollError =
    | ApiError(status: Option<int>, osCause: bool, retryable: Option<bool>, retryAfter: Option<real>)
    | OsError

  datatype Poll = Poll(answer: Result<Build, PollError>, elapsed: real, jitter: real, overshoot: real)

  const TRIES_WITHOUT_DEADLINE: nat := 6

  predicate Retriable(e: PollError) {
    e.OsError? ||
    ((if e.status.Some? then e.status.value in {408, 429, 500, 502, 503, 504} else e.osCause)
     && e.retryable != Some(false))
  }

  /** The pause after the given number of failed polls in a row. */
  function Backoff(failures: nat, e: PollError, jitter: real): real
    requires failures > 0
  {
    var base := Min(5.0, 0.5 * Pow2(if failures - 1 < 4 then failures - 1 else 4));
    var delay := if e.ApiError? && e.retryAfter.Some? then Max(base, e.retryAfter.value) else base;
    delay * (1.0 + jitter * 0.2)
  }

  predicate Over(deadline: Option<real>, now: real) { deadline.Some? && deadline.value - now <= 0.0 }

  function Capped(seconds: real, deadline: Option<real>, now: real): real {
    if deadline.Some? then Min(seconds, deadline.value - now) else seconds
  }

  // GiveUp: raise the poll's error. Expired: the deadline is over.
  datatype Pause = Sleep(seconds: real) | GiveUp | Expired

  class ImageBuildWait {
    const deadline: Option<real>
    var failures: nat    // consecutive_poll_failures

    constructor (deadline: Option<real>)
      ensures this.deadline == deadline && failures == 0
    {
      this.deadline, failures := deadline, 0;
    }

    method Accept(b: Build) returns (terminal: bool)
      modifies this
      ensures failures == 0 && terminal == b.terminal
    {
      failures := 0;
      terminal := b.terminal;
    }

    /** Retries only a failed observation, and without a deadline only six in a row. */
    method RetryDelay(e: PollError, jitter: real, now: real) returns (p: Pause)
      modifies this
      ensures p == GiveUp <==> !Retriable(e) || (deadline.None? && old(failures) >= TRIES_WITHOUT_DEADLINE)
      ensures Retriable(e) ==> failures == old(failures) + 1
      ensures p == Expired <==> Retriable(e) && Over(deadline, now)
      ensures p.Sleep? ==> p.seconds == Capped(Backoff(failures, e, jitter), deadline, now)
    {
      if !Retriable(e) {
        return GiveUp;
      }
      failures := failures + 1;
      if deadline.None? && failures > TRIES_WITHOUT_DEADLINE {
        return GiveUp;
      }
      if Over(deadline, now) {
        return Expired;
      }
      var delay := Min(5.0, 0.5 * Pow2(if failures - 1 < 4 then failures - 1 else 4));
      if e.ApiError? && e.retryAfter.Some? {
        delay := Max(delay, e.retryAfter.value);
      }
      p := Sleep(Capped(delay * (1.0 + jitter * 0.2), deadline, now));
    }

    method Delay(interval: real, now: real) returns (p: Pause)
      ensures p == if Over(deadline, now) then Expired else Sleep(Capped(Max(0.1, interval), deadline, now))
    {
      if Over(deadline, now) {
        return Expired;
      }
      p := Sleep(Capped(Max(0.1, interval), deadline, now));
    }
  }

  // ----- whole waits -----

  /** Failed polls in a row, up to and including the k-th. */
  function Streak(polls: seq<Poll>, k: nat): nat
    requires k < |polls|
  {
    if polls[k].answer.Ok? then 0 else 1 + (if k == 0 then 0 else Streak(polls, k - 1))
  }

  /** The poll neither finished the build nor gave the wait up. */
  predicate GoesOn(polls: seq<Poll>, deadline: Option<real>, k: nat)
    requires k < |polls|
  {
    match polls[k].answer
    case Ok(build) => !build.terminal
    case Err(e) => Retriable(e) && (deadline.None? ==> Streak(polls, k) <= TRIES_WITHOUT_DEADLINE)
  }

  /** The pause that is due after a poll, before the deadline cuts it. */
  function Due(polls: seq<Poll>, interval: real, k: nat): real
    requires k < |polls|
  {
    match polls[k].answer
    case Ok(_) => Max(0.1, interval)
    case Err(e) => Backoff(Streak(polls, k), e, polls[k].jitter)
  }

  // A pause the loop made: when it began and how long it was asked to be.
  datatype Slept = Slept(at: real, seconds: real)

  /** The time when the poll after some pauses begins. */
  function Clock(polls: seq<Poll>, start: real, sleeps: seq<Slept>): real
    requires |sleeps| <= |polls|
  {
    if sleeps == [] then start
    else
      var n := |sleeps| - 1;
      sleeps[n].at + sleeps[n].seconds + polls[n].overshoot
  }

  /** The k-th pause: it began when the poll before it was answered, which was sent
      after the pause before that; neither moment was past the deadline. */
  ghost predicate SleepOk(polls: seq<Poll>, deadline: Option<real>, interval: real, start: real, sleeps: seq<Slept>, k: nat)
    requires k < |sleeps| <= |polls|
  {
    var began := Clock(polls, start, sleeps[..k]);
    && !Over(deadline, began) && GoesOn(polls, deadline, k)
    && sleeps[k].at == began + polls[k].elapsed && !Over(deadline, sleeps[k].at)
    && sleeps[k].seconds == Capped(Due(polls, interval, k), deadline, sleeps[k].at)
  }

  ghost predicate SleepsOk(polls: seq<Poll>, deadline: Option<real>, interval: real, start: real, sleeps: seq<Slept>) {
    && |sleeps| <= |polls|
    && forall k :: 0 <= k < |sleeps| ==> SleepOk(polls, deadline, interval, start, sleeps, k)
  }

  datatype BuildEnd = Finished(build: Build) | PollRaised | BuildTimedOut | PollsUsedUp

  /** A whole wait: its pauses, and why it ended after them. */
  ghost predicate BuildRun(deadline: Option<real>, interval: real, start: real, polls: seq<Poll>, end: BuildEnd, sleeps: seq<Slept>) {
    && SleepsOk(polls, deadline, interval, start, sleeps)
    && var now, k := Clock(polls, start, sleeps), |sleeps|;
       match end
       case PollsUsedUp => k == |polls|
       case Finished(build) => k < |polls| && !Over(deadline, now) && polls[k].answer == Ok(build) && build.terminal
       case PollRaised => k < |polls| && !Over(deadline, now) && polls[k].answer.Err? && !GoesOn(polls, deadline, k)
       case BuildTimedOut =>
         && k < |polls|
         && (Over(deadline, now) || (GoesOn(polls, deadline, k) && Over(deadline, now + polls[k].elapsed)))
  }

  /** `wait_for_image_build` */
  method WaitForImageBuild(deadline: Option<real>, interval: real, start: real, polls: seq<Poll>)
      returns (end: BuildEnd, sleeps: seq<Slept>)
    ensures BuildRun(deadline, interval, start, polls, end, sleeps)
  {
    var state := new ImageBuildWait(deadline);
    var now := start;
    sleeps := [];
    while |sleeps| < |polls|
      invariant state.deadline == deadline && SleepsOk(polls, deadline, interval, start, sleeps)
      invariant now == Clock(polls, start, sleeps)
      invariant state.failures == if sleeps == [] then 0 else Streak(polls, |sleeps| - 1)
      decreases |polls| - |sleeps|
    {
      if Over(deadline, now) {
        return BuildTimedOut, sleeps;
      }
      var poll := polls[|sleeps|];
      now := now + poll.elapsed;
      var pause: Pause;
      match poll.answer {
        case Err(e) =>
          pause := state.RetryDelay(e, poll.jitter, now);
          if pause == GiveUp {
            return PollRaised, sleeps;
          }
        case Ok(build) =>
          var terminal := state.Accept(build);
          if terminal {
            return Finished(build), sleeps;
          }
          pause := state.Delay(interval, now);
      }
      if pause == Expired {
        return BuildTimedOut, sleeps;
      }
      SleepAdded(polls, deadline, interval, start, sleeps, Slept(now, pause.seconds));
      sleeps := sleeps + [Slept(now, pause.seconds)];
      now := now + pause.seconds + poll.overshoot;
    }
    end := PollsUsedUp;
  }

  lemma SleepAdded(polls: seq<Poll>, deadline: Option<real>, interval: real, start: real, sleeps: seq<Slept>, s: Slept)
    requires SleepsOk(polls, deadline, interval, start, sleeps) && |sleeps| < |polls|
    requires var began := Clock(polls, start, sleeps); var k := |sleeps|;
      && !Over(deadline, began) && GoesOn(polls, deadline, k)
      && s.at == began + polls[k].elapsed && !Over(deadline, s.at)
      && s.seconds == Capped(Due(polls, interval, k), deadline, s.at)
    ensures SleepsOk(polls, deadline, interval, start, sleeps + [s])
  {
    var more := sleeps + [s];
    assert more[..|sleeps|] == sleeps;
    forall k | 0 <= k < |sleeps| ensures SleepOk(polls, deadline, interval, start, more, k) {
      assert SleepOk(polls, deadline, interval, start, sleeps, k);
      assert more[..k] == sleeps[..k];
    }
  }

  /** A pause is at least a tenth of a second unless the deadline cuts it, never
      negative, and never passes the deadline. */
  lemma NoPausePassesTheDeadline(deadline: Option<real>, interval: real, start: real, polls: seq<Poll>,
                                 end: BuildEnd, sleeps: seq<Slept>, k: nat)
    requires BuildRun(deadline, interval, start, polls, end, sleeps) && k < |sleeps| && 0.0 <= polls[k].jitter
    ensures sleeps[k].seconds > 0.0 && (deadline.Some? ==> sleeps[k].at + sleeps[k].seconds <= deadline.value)
    ensures sleeps[k].seconds < 0.1 ==> deadline.Some? && sleeps[k].at + sleeps[k].seconds == deadline.value
  {
    assert SleepOk(polls, deadline, interval, start, sleeps, k);
    if polls[k].answer.Err? {
      BackoffIsReal(Streak(polls, k), polls[k].answer.error, polls[k].jitter);
    }
  }

  lemma BackoffIsReal(failures: nat, e: PollError, jitter: real)
    requires failures > 0 && 0.0 <= jitter
    ensures Backoff(failures, e, jitter) >= 0.5
  {
    Pow2Positive(if failures - 1 < 4 then failures - 1 else 4);
    var base := Min(5.0, 0.5 * Pow2(if failures - 1 < 4 then failures - 1 else 4));
    var delay := if e.ApiError? && e.retryAfter.Some? then Max(base, e.retryAfter.value) else base;
    assert delay * (jitter * 0.2) >= 0.0;
  }

  /** Without a deadline no seven polls in a row fail before the wait gives up. */
  lemma SixFailuresInARow(interval: real, start: real, polls: seq<Poll>, end: BuildEnd, sleeps: seq<Slept>, k: nat)
    requires BuildRun(None, interval, start, polls, end, sleeps) && k < |sleeps| && k >= TRIES_WITHOUT_DEADLINE
    ensures exists j :: k - TRIES_WITHOUT_DEADLINE <= j <= k && polls[j].answer.Ok?
  {
    assert SleepOk(polls, None, interval, start, sleeps, k);
    StreakReachesBack(polls, k, TRIES_WITHOUT_DEADLINE);
  }

  lemma {:induction false} StreakReachesBack(polls: seq<Poll>, k: nat, n: nat)
    requires n <= k < |polls| && Streak(polls, k) <= n
    ensures exists j :: k - n <= j <= k && polls[j].answer.Ok?
  {
    if polls[k].answer.Err? {
      StreakReachesBack(polls, k - 1, n - 1);
    }
  }

  /** The polls that are repeated: an OSError, one that an API error wraps, and six
      statuses, unless the error says that it is not retryable. */
  lemma RepeatedPolls(e: PollError)
    ensures Retriable(e) <==>
      || e == OsError
      || (e.retryable != Some(false)
          && ((e.status == None && e.osCause)
              || e.status in {Some(408), Some(429), Some(500), Some(502), Some(503), Some(504)}))
  {
    if e.ApiError? && e.status.Some? {
      assert forall n :: e.status == Some(n) <==> e.status.value == n;
    }
  }

  /** A wait is given up on a failed poll only when its error is not one to repeat,
      or, without a deadline, when it is the seventh in a row. */
  lemma GivenUpForCause(deadline: Option<real>, interval: real, start: real, polls: seq<Poll>, sleeps: seq<Slept>)
    requires BuildRun(deadline, interval, start, polls, PollRaised, sleeps)
    ensures var k := |sleeps|;
      && k < |polls| && polls[k].answer.Err?
      && (Retriable(polls[k].answer.error) ==>
            deadline.None? && k >= 6 && forall j :: k - 6 <= j <= k ==> polls[j].answer.Err?)
  {
    if Retriable(polls[|sleeps|].answer.error) {
      StreakFailed(polls, |sleeps|, 6);
    }
  }

  lemma {:induction false} StreakFailed(polls: seq<Poll>, k: nat, n: nat)
    requires k < |polls| && n < Streak(polls, k)
    ensures n <= k && forall j :: k - n <= j <= k ==> polls[j].answer.Err?
  {
    if n > 0 {
      StreakFailed(polls, k - 1, n - 1);
    }
  }

  /** The pause that is due after a failed poll doubles from half a second up to five,
      is no shorter than Retry-After, and is drawn out by at most a fifth. */
  lemma FailurePauses(polls: seq<Poll>, interval: real, k: nat)
    requires k < |polls| && polls[k].answer.Err? && 0.0 <= polls[k].jitter < 1.0
    ensures var e, n := polls[k].answer.error, Streak(polls, k);
      var base := [0.5, 1.0, 2.0, 4.0, 5.0][if n - 1 < 4 then n - 1 else 4];
      var least := if e.ApiError? && e.retryAfter.Some? && e.retryAfter.value > base then e.retryAfter.value else base;
      least <= Due(polls, interval, k) <= 1.2 * least
  {
    var e, n := polls[k].answer.error, Streak(polls, k);
    assert Pow2(0) == 1.0 && Pow2(1) == 2.0 && Pow2(2) == 4.0 && Pow2(3) == 8.0;
    assert Pow2(4) == 2.0 * Pow2(3);
    var base := [0.5, 1.0, 2.0, 4.0, 5.0][if n - 1 < 4 then n - 1 else 4];
    var least := if e.ApiError? && e.retryAfter.Some? && e.retryAfter.value > base then e.retryAfter.value else base;
    DrawnOut(least, polls[k].jitter * 0.2, Due(polls, interval, k));
  }

  lemma DrawnOut(least: real, part: real, pause: real)
    requires least >= 0.0 && 0.0 <= part <= 0.2 && pause == least * (1.0 + part)
    ensures least <= pause <= 1.2 * least
  {
    assert 0.0 <= least * part;
    assert least * part <= least * 0.2 by {
      assert least * (0.2 - part) >= 0.0;
    }
  }

  /** After a poll that succeeded the wait pauses for its interval, at least a tenth
      of a second; a pause is cut only where the deadline is. */
  lemma PausesAreDue(deadline: Option<real>, interval: real, start: real, polls: seq<Poll>,
                     end: BuildEnd, sleeps: seq<Slept>, k: nat)
    requires BuildRun(deadline, interval, start, polls, end, sleeps) && k < |sleeps|
    ensures polls[k].answer.Ok? ==> Due(polls, interval, k) == if interval > 0.1 then interval else 0.1
    ensures sleeps[k].seconds == Due(polls, interval, k)
         || (deadline.Some? && sleeps[k].seconds < Due(polls, interval, k) && sleeps[k].at + sleeps[k].seconds == deadline.value)
  {
    assert SleepOk(polls, deadline, interval, start, sleeps, k);
  }

  /** A wait times out only at its deadline or after it, and sends and sleeps only before. */
  lemma TimedOutForCause(deadline: Option<real>, interval: real, start: real, polls: seq<Poll>, end: BuildEnd, sleeps: seq<Slept>)
    requires BuildRun(deadline, interval, start, polls, end, sleeps)
    ensures var now, k := Clock(polls, start, sleeps), |sleeps|;
      && (end == BuildTimedOut ==> deadline.Some? && k < |polls| && (now >= deadline.value || now + polls[k].elapsed >= deadline.value))
      && (end.Finished? || end == PollRaised ==> deadline.Some? ==> now < deadline.value)
    ensures forall k :: 0 <= k < |sleeps| && deadline.Some? ==> sleeps[k].at < deadline.value
  {
    forall k | 0 <= k < |sleeps| && deadline.Some? ensures sleeps[k].at < deadline.value {
      assert SleepOk(polls, deadline, interval, start, sleeps, k);
    }
  }
}
