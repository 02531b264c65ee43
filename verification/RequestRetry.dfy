/** The client's request loop and its retry classifier, on top of the
    connection pool (src/ucloud_sandboxes_sdk/client.py). */
module RequestRetry {
  import opened Prelude
  import P = ConnectionPool

  datatype Verb = GET | HEAD | OPTIONS | POST | PUT | PATCH | DELETE

  // The error codes the classifier knows, spelled as the gateway spells them.
  datatype Code =
    | HttpRequestCapacityExhausted | SnapshotPublicationPending | NodeActiveExecDeferred
    | NodeRestoreBusy | NodeStartupBusy | GatewayStartupBusy
    | WakeDestinationUnavailable | MigrationDestinationUnavailable
    | ImageInventoryIncomplete | ManagedRegistryDigestProtectionUnavailable
    | BuilderNotReady | BuilderBusy | NodeAdmissionClosed
    | MemoryPublicationDraining
    | Unlisted

  // What the classifier reads of an error body. `retryable` stands for the
  // value True; `jobUnavailable` for the two markers in its lower-cased text.
  datatype Body = Body(isDict: bool, retryable: bool, code: Code, jobUnavailable: bool)

  const SANDBOXES := "/v1/sandboxes"
  const SANDBOX_PREFIX := "/v1/sandboxes/"
  const EXEC_PREFIX := "/v1/exec/"
  const GROUPS := "/v1/sandboxes:batch"
  const IMAGE_BUILD := "/v1/images/build"
  const IMAGE_PULL := "/v1/images/pull"
  const CAPACITY_PREPARE := "/v1/capacity/prepare"

  const TRANSIENT := {408, 425, 429, 500, 502, 503, 504}
  const ORDINARY_ATTEMPTS: nat := 6

  predicate StartsWith(s: string, prefix: string) { prefix <= s }

  predicate SafeRead(verb: Verb) { verb == GET || verb == HEAD || verb == OPTIONS }

  predicate StableCreate(verb: Verb, path: string) { verb == POST && path == SANDBOXES }

  predicate GroupDelete(verb: Verb, path: string) { verb == DELETE && StartsWith(path, GROUPS + "/") }

  function BeforeQuery(s: string): string
  {
    if s == "" || s[0] == '?' then "" else [s[0]] + BeforeQuery(s[1..])
  }

  predicate SandboxDelete(verb: Verb, path: string) {
    && verb == DELETE && StartsWith(path, SANDBOX_PREFIX)
    && '/' !in BeforeQuery(path[|SANDBOX_PREFIX|..])
  }

  /** An answer the gateway gives only before it dispatches any work. */
  predicate Fence(verb: Verb, path: string, body: Body) {
    match body.code
    case ImageInventoryIncomplete => verb == POST && (path == CAPACITY_PREPARE || path == IMAGE_PULL)
    case ManagedRegistryDigestProtectionUnavailable =>
      verb == POST && (path == CAPACITY_PREPARE || path == IMAGE_PULL)
    case BuilderNotReady => verb == POST && path == IMAGE_BUILD
    case BuilderBusy => verb == POST && path == IMAGE_BUILD
    case NodeAdmissionClosed => verb == POST && path == IMAGE_BUILD
    case MemoryPublicationDraining => false
    case Unlisted => false
    case _ => true
  }

  predicate ShouldRetry(status: int, body: Body, attempt: nat, verb: Verb, path: string, maxAttempts: Option<nat>) {
    if verb == POST && path == GROUPS then false else
    var marked := status in TRANSIENT && body.isDict && body.retryable;
    var fence := marked &&
      (Fence(verb, path, body)
       || (SandboxDelete(verb, path) && body.code == MemoryPublicationDraining)
       || GroupDelete(verb, path));
    var limit :=
      if fence || StableCreate(verb, path) then maxAttempts
      else if maxAttempts.Some? && 0 < maxAttempts.value < ORDINARY_ATTEMPTS then maxAttempts
      else Some(ORDINARY_ATTEMPTS);
    if limit.Some? && attempt + 1 >= limit.value then false
    else if fence then true
    else if marked && (SafeRead(verb) || StableCreate(verb, path)) then true
    else status == 503 && (SafeRead(verb) || StableCreate(verb, path)) && body.jobUnavailable
  }

  function RetryAttempts(verb: Verb, path: string): Option<nat> {
    if verb == POST && path == IMAGE_BUILD then None
    else if verb == POST && (path == SANDBOXES || path == GROUPS) then None
    else if StartsWith(path, SANDBOX_PREFIX) || StartsWith(path, EXEC_PREFIX) then None
    else Some(ORDINARY_ATTEMPTS)
  }

  function RetryDelay(attempt: nat, retryAfter: Option<real>, jitter: real, verb: Verb, path: string): real {
    match retryAfter
    case Some(seconds) => Min(60.0, seconds * (1.0 + jitter * 0.25))
    case None =>
      Min(if StableCreate(verb, path) then 30.0 else 4.0, 0.25 * Pow2(if attempt < 16 then attempt else 16))
  }

  function ConnectionDelay(attempt: nat, maxAttempts: Option<nat>): Option<real> {
    var limit := if maxAttempts.Some? && 0 < maxAttempts.value < 5 then maxAttempts.value else 5;
    if attempt + 1 >= limit then None else Some(Min(2.0, 0.25 * Pow2(attempt)))
  }

  // ----- what one attempt meets -----

  // `answer` and `writes` are those of one `open_reusing` call. The other
  // fields say how a failed connect failed, what an answer's body and headers
  // hold and whether they could be read, and how time passed.
  datatype Turn = Turn(
    writes: seq<P.Wire>, answer: Option<P.Answer>, connectUnreachable: bool,
    readable: bool, body: Body, retryAfter: Option<real>,
    elapsed: real, jitter: real, overshoot: real)

  datatype Seen = Success | HttpError(status: int) | ConnectFailure | Fatal

  function See(t: Turn): Seen {
    match t.answer
    case None => if t.connectUnreachable then ConnectFailure else Fatal
    case Some(Response(status)) =>
      if !t.readable then Fatal else if 200 <= status < 300 then Success else HttpError(status)
    case Some(Refused(unreachable)) => if unreachable then ConnectFailure else Fatal
    case Some(_) => Fatal
  }

  ghost predicate TurnOk(verb: Verb, t: Turn) {
    && P.OneCall(verb == GET || verb == HEAD, t.writes, t.answer)
    && t.elapsed >= 0.0 && t.overshoot >= 0.0 && 0.0 <= t.jitter < 1.0
    && (t.retryAfter.Some? ==> 0.0 <= t.retryAfter.value <= 60.0)
  }

  /** How often the server executed the operation during an attempt. */
  ghost function Ran(writes: seq<P.Wire>): nat {
    if writes == [] then 0 else (if writes[0].ran then 1 else 0) + Ran(writes[1..])
  }

  ghost function TotalRan(turns: seq<Turn>): nat {
    if turns == [] then 0 else Ran(turns[0].writes) + TotalRan(turns[1..])
  }

  /** The pause the loop asks for after a turn; None means it does not go on. */
  function Pause(verb: Verb, path: string, attempt: nat, t: Turn): Option<real> {
    var limit := RetryAttempts(verb, path);
    match See(t)
    case HttpError(status) =>
      if ShouldRetry(status, t.body, attempt, verb, path, limit)
      then Some(RetryDelay(attempt, t.retryAfter, t.jitter, verb, path)) else None
    case ConnectFailure => ConnectionDelay(attempt, limit)
    case _ => None
  }

  // ----- the loop -----

  // `Fallen` is the AssertionError after the loop; `Unfinished` says the
  // environment's script ended first.
  datatype Outcome = Answered | Raised | Expired | Fallen | Unfinished

  // An attempt that was followed by a retry pause.
  datatype Retried = Retried(began: real, ended: real, pause: real)

  /** When the attempt after those in the log begins. */
  ghost function Begins(turns: seq<Turn>, start: real, log: seq<Retried>): real
    requires |log| <= |turns|
  {
    if log == [] then start
    else
      var n := |log| - 1;
      log[n].ended + log[n].pause + turns[n].overshoot
  }

  /** A retried attempt began when the pause before it was over, before the
      deadline; it asked for its pause, which ended before the deadline too. */
  ghost predicate PacedTurn(verb: Verb, path: string, turns: seq<Turn>, start: real, deadline: real, log: seq<Retried>, k: nat)
    requires k < |log| <= |turns|
  {
    && Pause(verb, path, k, turns[k]) == Some(log[k].pause)
    && log[k].began == Begins(turns, start, log[..k]) && log[k].began < deadline
    && log[k].ended == log[k].began + turns[k].elapsed
    && log[k].ended + log[k].pause < deadline
  }

  ghost predicate Paced(verb: Verb, path: string, turns: seq<Turn>, start: real, deadline: real, log: seq<Retried>) {
    && |log| <= |turns|
    && forall k :: 0 <= k < |log| ==> PacedTurn(verb, path, turns, start, deadline, log, k)
  }

  lemma PacedGrows(verb: Verb, path: string, turns: seq<Turn>, start: real, deadline: real, log: seq<Retried>, r: Retried)
    requires Paced(verb, path, turns, start, deadline, log) && |log| < |turns|
    requires PacedTurn(verb, path, turns, start, deadline, log + [r], |log|)
    ensures Paced(verb, path, turns, start, deadline, log + [r])
  {
    forall k | 0 <= k < |log| ensures PacedTurn(verb, path, turns, start, deadline, log + [r], k) {
      assert PacedTurn(verb, path, turns, start, deadline, log, k);
      assert (log + [r])[..k] == log[..k];
    }
  }

  /** A whole run of the loop: `last` is the start of the attempt that ended it, if
      one did. The clock reads `now` when that attempt, or none, is due. */
  ghost predicate RequestRun(verb: Verb, path: string, start: real, deadline: real, turns: seq<Turn>,
                             outcome: Outcome, log: seq<Retried>, last: Option<real>)
  {
    && Paced(verb, path, turns, start, deadline, log)
    && var now, k := Begins(turns, start, log), |log|;
       match outcome
       case Expired => last == None && now >= deadline
       case Unfinished => last == None && now < deadline && k == |turns|
       case Answered => last == Some(now) && now < deadline && k < |turns| && See(turns[k]) == Success
       case Raised =>
         && last == Some(now) && now < deadline && k < |turns| && See(turns[k]) != Success
         && var pause := Pause(verb, path, k, turns[k]);
            pause == None || now + turns[k].elapsed + pause.value >= deadline
       case Fallen => false
  }

  /** One request: `turns` is what its attempts meet, in order. */
  method RequestJson(verb: Verb, path: string, timeout: real, start: real, turns: seq<Turn>)
      returns (outcome: Outcome, log: seq<Retried>, last: Option<real>)
    requires forall k :: 0 <= k < |turns| ==> TurnOk(verb, turns[k])
    ensures RequestRun(verb, path, start, start + Max(0.0, timeout), turns, outcome, log, last)
  {
    var limit := RetryAttempts(verb, path);
    var deadline, now, attempt := start + Max(0.0, timeout), start, 0;
    log := [];
    while limit.None? || attempt < limit.value
      invariant attempt == |log| && (limit.Some? ==> attempt < limit.value)
      invariant Paced(verb, path, turns, start, deadline, log)
      invariant now == Begins(turns, start, log)
      decreases |turns| - attempt
    {
      if Max(0.0, deadline - now) <= 0.0 {
        return Expired, log, None;
      }
      if attempt == |turns| {
        return Unfinished, log, None;
      }
      var turn, began := turns[attempt], now;
      now := now + turn.elapsed;
      if See(turn) == Success {
        return Answered, log, Some(began);
      }
      var pause := Pause(verb, path, attempt, turn);
      if pause.None? {
        return Raised, log, Some(began);
      }
      PauseBounds(verb, path, attempt, turn);
      if Max(0.0, deadline - now) <= pause.value {
        return Raised, log, Some(began);
      }
      AttemptLimits(verb, path, attempt, turn);
      assert (log + [Retried(began, now, pause.value)])[..attempt] == log;
      PacedGrows(verb, path, turns, start, deadline, log, Retried(began, now, pause.value));
      log := log + [Retried(began, now, pause.value)];
      now := now + pause.value + turn.overshoot;
      attempt := attempt + 1;
    }
    outcome, last := Fallen, None;
  }

  lemma {:induction false} SameLog(verb: Verb, path: string, start: real, deadline: real, turns: seq<Turn>,
                                   a: seq<Retried>, b: seq<Retried>, n: nat)
    requires Paced(verb, path, turns, start, deadline, a) && Paced(verb, path, turns, start, deadline, b)
    requires n <= |a| && n <= |b|
    ensures a[..n] == b[..n]
  {
    if n > 0 {
      SameLog(verb, path, start, deadline, turns, a, b, n - 1);
      assert PacedTurn(verb, path, turns, start, deadline, a, n - 1);
      assert PacedTurn(verb, path, turns, start, deadline, b, n - 1);
    }
  }

  lemma RunGoesOn(verb: Verb, path: string, start: real, deadline: real, turns: seq<Turn>,
                  outcome: Outcome, a: seq<Retried>, last: Option<real>, b: seq<Retried>)
    requires RequestRun(verb, path, start, deadline, turns, outcome, a, last)
    requires Paced(verb, path, turns, start, deadline, b)
    ensures |b| <= |a|
  {
    if |a| < |b| {
      assert PacedTurn(verb, path, turns, start, deadline, b, |a|);
      assert a[..|a|] == a;
      SameLog(verb, path, start, deadline, turns, a, b, |a|);
      assert false;
    }
  }

  /** What the attempts meet decides the run: its outcome, and when each attempt and pause was. */
  lemma RequestHasOneRun(verb: Verb, path: string, start: real, deadline: real, turns: seq<Turn>,
                         o1: Outcome, a: seq<Retried>, l1: Option<real>, o2: Outcome, b: seq<Retried>, l2: Option<real>)
    requires RequestRun(verb, path, start, deadline, turns, o1, a, l1)
    requires RequestRun(verb, path, start, deadline, turns, o2, b, l2)
    ensures o1 == o2 && a == b && l1 == l2
  {
    RunGoesOn(verb, path, start, deadline, turns, o1, a, l1, b);
    RunGoesOn(verb, path, start, deadline, turns, o2, b, l2, a);
    SameLog(verb, path, start, deadline, turns, a, b, |a|);
    assert a[..|a|] == a && b[..|b|] == b;
  }

  lemma RetryDelayBounds(attempt: nat, retryAfter: Option<real>, jitter: real, verb: Verb, path: string)
    requires 0.0 <= jitter < 1.0 && (retryAfter.Some? ==> 0.0 <= retryAfter.value <= 60.0)
    ensures 0.0 <= RetryDelay(attempt, retryAfter, jitter, verb, path) <= 60.0
  {
    match retryAfter
    case Some(seconds) => assert seconds * (1.0 + jitter * 0.25) >= 0.0;
    case None => Pow2Positive(if attempt < 16 then attempt else 16);
  }

  /** A pause is never negative and never longer than a minute. */
  lemma PauseBounds(verb: Verb, path: string, attempt: nat, t: Turn)
    requires TurnOk(verb, t) && Pause(verb, path, attempt, t).Some?
    ensures 0.0 <= Pause(verb, path, attempt, t).value <= 60.0
  {
    match See(t)
    case HttpError(_) => RetryDelayBounds(attempt, t.retryAfter, t.jitter, verb, path);
    case _ => Pow2Positive(attempt);
  }

  /** A pause is asked for only while another attempt is allowed: ordinary
      errors stop within six attempts and connect failures within five, counted
      together. */
  lemma AttemptLimits(verb: Verb, path: string, attempt: nat, t: Turn)
    requires Pause(verb, path, attempt, t).Some?
    ensures RetryAttempts(verb, path).Some? ==> attempt + 1 < RetryAttempts(verb, path).value
    ensures See(t) == ConnectFailure ==> attempt + 1 < 5
    ensures See(t).HttpError? ==>
      || attempt + 1 < ORDINARY_ATTEMPTS
      || StableCreate(verb, path) || Fence(verb, path, t.body) || SandboxDelete(verb, path) || GroupDelete(verb, path)
  {
  }

  // ----- which attempts are repeated -----

  /** The path of one sandbox, with whatever query after it. */
  ghost predicate NamesSandbox(path: string, id: string, query: string) {
    && path == "/v1/sandboxes/" + id + query
    && '/' !in id && '?' !in id && (query == "" || query[0] == '?')
  }

  ghost predicate OneSandbox(path: string) { exists id, query :: NamesSandbox(path, id, query) }

  lemma {:induction false} BeforeQuerySplits(s: string, id: string, query: string)
    requires s == id + query && '?' !in id && (query == "" || query[0] == '?')
    ensures BeforeQuery(s) == id
  {
    if id != "" {
      assert s[1..] == id[1..] + query;
      BeforeQuerySplits(s[1..], id[1..], query);
    }
  }

  lemma {:induction false} BeforeQueryIsPrefix(s: string)
    ensures var id := BeforeQuery(s);
      && id <= s && '?' !in id && (s[|id|..] == "" || s[|id|..][0] == '?')
  {
    if s != "" && s[0] != '?' {
      BeforeQueryIsPrefix(s[1..]);
      assert s[|BeforeQuery(s)|..] == s[1..][|BeforeQuery(s[1..])|..];
    }
  }

  lemma SandboxDeleteMeaning(verb: Verb, path: string)
    ensures SandboxDelete(verb, path) <==> verb == DELETE && OneSandbox(path)
  {
    if verb == DELETE && StartsWith(path, SANDBOX_PREFIX) {
      var rest := path[|SANDBOX_PREFIX|..];
      BeforeQueryIsPrefix(rest);
      var id := BeforeQuery(rest);
      assert path == SANDBOX_PREFIX + id + rest[|id|..];
      if '/' !in id {
        assert NamesSandbox(path, id, rest[|id|..]);
      }
    }
    forall id, query | verb == DELETE && NamesSandbox(path, id, query) ensures SandboxDelete(verb, path) {
      assert path == SANDBOX_PREFIX + (id + query);
      BeforeQuerySplits(id + query, id, query);
    }
  }

  /** The operations that may be repeated whatever became of an earlier attempt. */
  lemma RepeatableOperations(verb: Verb, path: string)
    ensures Repeatable(verb, path) <==>
      || verb in {GET, HEAD, OPTIONS}
      || (verb == POST && path == "/v1/sandboxes")
      || (verb == DELETE && (OneSandbox(path) || "/v1/sandboxes:batch/" <= path))
  {
    SandboxDeleteMeaning(verb, path);
  }

  /** A transient status with a body that calls itself retryable. */
  ghost predicate CalledRetryable(status: int, body: Body) {
    status in {408, 425, 429, 500, 502, 503, 504} && body.isDict && body.retryable
  }

  /** The refusals that come before any work: eight codes on every operation, the
      builder's three on a build, the image store's two where images are resolved,
      and whatever a delete that can be repeated meets. */
  ghost predicate RefusedUndone(verb: Verb, path: string, code: Code) {
    || code in {HttpRequestCapacityExhausted, SnapshotPublicationPending, NodeActiveExecDeferred, NodeRestoreBusy,
                NodeStartupBusy, GatewayStartupBusy, WakeDestinationUnavailable, MigrationDestinationUnavailable}
    || (verb == POST && path == "/v1/images/build" && code in {BuilderNotReady, BuilderBusy, NodeAdmissionClosed})
    || (verb == POST && path in {"/v1/capacity/prepare", "/v1/images/pull"}
        && code in {ImageInventoryIncomplete, ManagedRegistryDigestProtectionUnavailable})
    || (verb == DELETE && OneSandbox(path) && code == MemoryPublicationDraining)
    || (verb == DELETE && "/v1/sandboxes:batch/" <= path)
  }

  /** Operations whose attempts only the deadline bounds. */
  ghost predicate BoundByDeadline(verb: Verb, path: string) {
    || (verb == POST && path in {"/v1/images/build", "/v1/sandboxes", "/v1/sandboxes:batch"})
    || "/v1/sandboxes/" <= path || "/v1/exec/" <= path
  }

  /** An answer that is worth another attempt, were there any number of them. */
  ghost predicate WorthRepeating(verb: Verb, path: string, status: int, body: Body) {
    && !(verb == POST && path == "/v1/sandboxes:batch")
    && ((CalledRetryable(status, body) && RefusedUndone(verb, path, body.code))
        || ((CalledRetryable(status, body) || (status == 503 && body.jobUnavailable))
            && (verb in {GET, HEAD, OPTIONS} || (verb == POST && path == "/v1/sandboxes"))))
  }

  /** Six attempts bound what is repeated, except a refusal before any work and a
      sandbox creation where the deadline is the bound. */
  ghost predicate SixAttempts(verb: Verb, path: string, status: int, body: Body) {
    || !BoundByDeadline(verb, path)
    || (!(CalledRetryable(status, body) && RefusedUndone(verb, path, body.code))
        && !(verb == POST && path == "/v1/sandboxes"))
  }

  /** Exactly these HTTP answers are followed by another attempt. */
  lemma RepeatedAnswers(verb: Verb, path: string, attempt: nat, t: Turn, status: nat)
    requires t.answer == Some(P.Response(status)) && t.readable && !(200 <= status < 300)
    ensures Pause(verb, path, attempt, t).Some? <==>
      && WorthRepeating(verb, path, status, t.body)
      && (SixAttempts(verb, path, status, t.body) ==> attempt + 1 < 6)
  {
    SandboxDeleteMeaning(verb, path);
    FenceMeaning(verb, path, t.body);
    assert StartsWith(path, SANDBOX_PREFIX) <==> "/v1/sandboxes/" <= path;
  }

  lemma FenceMeaning(verb: Verb, path: string, body: Body)
    ensures RefusedUndone(verb, path, body.code) <==>
      || Fence(verb, path, body) || GroupDelete(verb, path)
      || (SandboxDelete(verb, path) && body.code == MemoryPublicationDraining)
  {
    SandboxDeleteMeaning(verb, path);
  }

  /** Every other attempt: one that could not connect is repeated up to five
      attempts in all, one that succeeded or broke off is the last. */
  lemma RepeatedConnects(verb: Verb, path: string, attempt: nat, t: Turn)
    requires !(t.answer.Some? && t.answer.value.Response? && t.readable && !(200 <= t.answer.value.status < 300))
    ensures Pause(verb, path, attempt, t).Some? <==>
      && ((t.answer.None? && t.connectUnreachable) || t.answer == Some(P.Refused(true)))
      && attempt + 1 < 5
    ensures Pause(verb, path, attempt, t).Some? ==> Pause(verb, path, attempt, t).value == [0.25, 0.5, 1.0, 2.0][attempt]
  {
    FirstPowers();
  }

  /** A request is answered exactly by a response with a success status whose body could be read. */
  lemma AnsweredForCause(verb: Verb, path: string, start: real, deadline: real, turns: seq<Turn>,
                         outcome: Outcome, log: seq<Retried>, last: Option<real>)
    requires RequestRun(verb, path, start, deadline, turns, outcome, log, last) && last.Some?
    ensures |log| < |turns|
    ensures var t := turns[|log|];
      outcome == Answered <==>
        t.answer.Some? && t.answer.value.Response? && t.readable && 200 <= t.answer.value.status < 300
  {
  }

  lemma FirstPowers()
    ensures Pow2(0) == 1.0 && Pow2(1) == 2.0 && Pow2(2) == 4.0 && Pow2(3) == 8.0
    ensures Pow2(4) == 16.0 && Pow2(5) == 32.0 && Pow2(6) == 64.0 && Pow2(7) == 128.0
  {
    assert Pow2(4) == 2.0 * Pow2(3);
    assert Pow2(6) == 2.0 * Pow2(5);
  }

  lemma {:induction false} Pow2Grows(n: nat, m: nat)
    requires n <= m
    ensures Pow2(n) <= Pow2(m)
    decreases m
  {
    if n < m {
      Pow2Grows(n, m - 1);
      Pow2Positive(m - 1);
    }
  }

  lemma Jittered(seconds: real, part: real, longer: real)
    requires seconds >= 0.0 && 0.0 <= part <= 0.25 && longer == seconds * (1.0 + part)
    ensures Min(60.0, seconds) <= Min(60.0, longer) <= Min(60.0, 1.25 * seconds)
  {
    assert 0.0 <= seconds * part;
    assert seconds * part <= seconds * 0.25 by {
      assert seconds * (0.25 - part) >= 0.0;
    }
  }

  /** How long the loop waits after an HTTP answer: as long as Retry-After says, plus up
      to a quarter; without one it doubles up to four seconds, for a sandbox creation thirty. */
  lemma AnswerPauses(verb: Verb, path: string, attempt: nat, t: Turn, status: nat)
    requires t.answer == Some(P.Response(status)) && t.readable && !(200 <= status < 300)
    requires 0.0 <= t.jitter < 1.0 && (t.retryAfter.Some? ==> 0.0 <= t.retryAfter.value)
    requires Pause(verb, path, attempt, t).Some?
    ensures var pause := Pause(verb, path, attempt, t).value;
      match t.retryAfter
      case Some(seconds) => Min(60.0, seconds) <= pause <= Min(60.0, 1.25 * seconds)
      case None =>
        var waits := if verb == POST && path == "/v1/sandboxes" then [0.25, 0.5, 1.0, 2.0, 4.0, 8.0, 16.0, 30.0]
                     else [0.25, 0.5, 1.0, 2.0, 4.0];
        pause == waits[if attempt < |waits| then attempt else |waits| - 1]
  {
    match t.retryAfter
    case Some(seconds) =>
      var longer := seconds * (1.0 + t.jitter * 0.25);
      Jittered(seconds, t.jitter * 0.25, longer);
      assert Pause(verb, path, attempt, t).value == Min(60.0, longer);
    case None =>
      FirstPowers();
      if attempt > 7 {
        Pow2Grows(7, if attempt < 16 then attempt else 16);
      }
  }

  /** A request is given up after an answer worth repeating only when its six
      attempts are used up, or the pause would reach the deadline. */
  lemma GivenUpForCause(verb: Verb, path: string, start: real, deadline: real, turns: seq<Turn>,
                        log: seq<Retried>, last: Option<real>, status: nat)
    requires RequestRun(verb, path, start, deadline, turns, Raised, log, last)
    requires |log| < |turns| && turns[|log|].answer == Some(P.Response(status)) && turns[|log|].readable
    requires !(200 <= status < 300) && WorthRepeating(verb, path, status, turns[|log|].body)
    ensures var t := turns[|log|];
      || (SixAttempts(verb, path, status, t.body) && |log| + 1 >= 6)
      || last.value + t.elapsed + RetryDelay(|log|, t.retryAfter, t.jitter, verb, path) >= deadline
  {
    RepeatedAnswers(verb, path, |log|, turns[|log|], status);
  }

  // ----- at most one effect -----

  /** Operations whose repetition has no further effect. */
  ghost predicate Repeatable(verb: Verb, path: string) {
    SafeRead(verb) || StableCreate(verb, path) || SandboxDelete(verb, path) || GroupDelete(verb, path)
  }

  /** What the client has to trust: a fence is given before dispatch, and a
      request refused as unreachable while being written never ran. */
  ghost predicate Honest(verb: Verb, path: string, t: Turn) {
    && (See(t).HttpError? && Fence(verb, path, t.body) ==> Ran(t.writes) == 0)
    && (t.answer.Some? && t.answer.value == P.Refused(true) ==> Ran(t.writes) == 0)
  }

  /** A retried attempt at an operation that must not be repeated ran nothing,
      exactly when the answer that caused the retry was honest. */
  lemma RetriedTurnRanNothing(verb: Verb, path: string, attempt: nat, t: Turn)
    requires TurnOk(verb, t) && !Repeatable(verb, path)
    requires Pause(verb, path, attempt, t).Some?
    ensures Ran(t.writes) == 0 <==> Honest(verb, path, t)
  {
    assert t.answer == None ==> t.writes == [];
  }

  /** The pool itself sends such an operation at most once. */
  lemma OneCallRunsOnce(verb: Verb, t: Turn)
    requires TurnOk(verb, t) && !SafeRead(verb)
    ensures Ran(t.writes) <= 1
  {
    assert |t.writes| <= 1;
    if t.writes != [] {
      assert t.writes[1..] == [];
    }
  }

  lemma {:induction false} AtMostOneEffect(verb: Verb, path: string, turns: seq<Turn>, first: nat)
    requires !Repeatable(verb, path)
    requires forall k :: 0 <= k < |turns| ==> TurnOk(verb, turns[k]) && Honest(verb, path, turns[k])
    requires forall k :: 0 <= k < |turns| - 1 ==> Pause(verb, path, first + k, turns[k]).Some?
    ensures TotalRan(turns) <= 1
    ensures |turns| > 0 ==> TotalRan(turns) == Ran(turns[|turns| - 1].writes)
    decreases |turns|
  {
    if |turns| == 1 {
      assert TotalRan(turns[1..]) == 0;
      OneCallRunsOnce(verb, turns[0]);
    } else if |turns| > 1 {
      assert Pause(verb, path, first + 0, turns[0]).Some?;
      RetriedTurnRanNothing(verb, path, first, turns[0]);
      forall k | 0 <= k < |turns[1..]| - 1
        ensures Pause(verb, path, first + 1 + k, turns[1..][k]).Some?
      {
        assert Pause(verb, path, first + (k + 1), turns[k + 1]).Some?;
      }
      AtMostOneEffect(verb, path, turns[1..], first + 1);
    }
  }

  /** One request, whatever the gateway answers: an operation that must not be
      repeated runs at most once, and only in the attempt that ended the loop. */
  lemma RequestRunsAtMostOnce(verb: Verb, path: string, start: real, deadline: real, turns: seq<Turn>,
                              outcome: Outcome, log: seq<Retried>, last: Option<real>)
    requires forall k :: 0 <= k < |turns| ==> TurnOk(verb, turns[k]) && Honest(verb, path, turns[k])
    requires RequestRun(verb, path, start, deadline, turns, outcome, log, last) && !Repeatable(verb, path)
    ensures last.None? ==> TotalRan(turns[..|log|]) == 0
    ensures last.Some? ==> TotalRan(turns[..|log| + 1]) == Ran(turns[|log|].writes) <= 1
  {
    var seen := turns[..if last.Some? then |log| + 1 else |log|];
    forall k | 0 <= k < |log| ensures Pause(verb, path, 0 + k, seen[k]).Some? {
      assert PacedTurn(verb, path, turns, start, deadline, log, k);
    }
    if last.None? && log != [] {
      assert Pause(verb, path, 0 + (|log| - 1), seen[|log| - 1]).Some?;
      RetriedTurnRanNothing(verb, path, |log| - 1, seen[|log| - 1]);
    }
    AtMostOneEffect(verb, path, seen, 0);
  }

  // ----- what the client can see of it -----

  /** The attempt may have run the operation, for all the client can see, if it
      trusts the fences: something was written, and the answer was no fence. */
  predicate MayRun(verb: Verb, path: string, t: Turn) {
    t.writes != [] && !(See(t).HttpError? && Fence(verb, path, t.body))
  }

  function MayRunCount(verb: Verb, path: string, turns: seq<Turn>): nat {
    if turns == [] then 0
    else (if MayRun(verb, path, turns[0]) then 1 else 0) + MayRunCount(verb, path, turns[1..])
  }

  /** The client sees the same; only what the server executed may differ. */
  ghost predicate LooksLike(a: Turn, b: Turn) {
    && a.(writes := b.writes) == b && |a.writes| == |b.writes|
    && forall k :: 0 <= k < |a.writes| ==> a.writes[k].answer == b.writes[k].answer
  }

  ghost predicate HonestFence(verb: Verb, path: string, t: Turn) {
    See(t).HttpError? && Fence(verb, path, t.body) ==> Ran(t.writes) == 0
  }

  /** A behaviour of the server with honest fences that the client cannot tell from another. */
  ghost predicate Possible(verb: Verb, path: string, turns: seq<Turn>, seen: seq<Turn>) {
    && |turns| == |seen|
    && forall k :: 0 <= k < |turns| ==>
         TurnOk(verb, turns[k]) && HonestFence(verb, path, turns[k]) && LooksLike(turns[k], seen[k])
  }

  lemma TurnRunsAsItMay(verb: Verb, path: string, t: Turn, seen: Turn)
    requires !SafeRead(verb) && TurnOk(verb, t) && HonestFence(verb, path, t) && LooksLike(t, seen)
    ensures Ran(t.writes) <= if MayRun(verb, path, seen) then 1 else 0
  {
    OneCallRunsOnce(verb, t);
  }

  /** No behaviour that looks like the one seen runs the operation more often than
      there are attempts that may have run it. */
  lemma {:induction false} RunsAtMost(verb: Verb, path: string, turns: seq<Turn>, seen: seq<Turn>)
    requires !SafeRead(verb) && Possible(verb, path, turns, seen)
    ensures TotalRan(turns) <= MayRunCount(verb, path, seen)
  {
    if turns != [] {
      TurnRunsAsItMay(verb, path, turns[0], seen[0]);
      RunsAtMost(verb, path, turns[1..], seen[1..]);
    }
  }

  /** The behaviour in which every attempt that may have run the operation did. */
  function Worst(verb: Verb, path: string, seen: seq<Turn>): seq<Turn> {
    if seen == [] then []
    else
      var t := seen[0];
      [t.(writes := seq(|t.writes|, i requires 0 <= i < |t.writes| => t.writes[i].(ran := MayRun(verb, path, t))))]
      + Worst(verb, path, seen[1..])
  }

  lemma {:induction false} WorstTurn(verb: Verb, path: string, t: Turn)
    requires !SafeRead(verb) && TurnOk(verb, t)
    ensures var worst := Worst(verb, path, [t])[0];
      && TurnOk(verb, worst) && HonestFence(verb, path, worst) && LooksLike(worst, t)
      && Ran(worst.writes) == if MayRun(verb, path, t) then 1 else 0
  {
    var worst := Worst(verb, path, [t])[0];
    assert |t.writes| <= 1;
    if t.writes != [] {
      assert worst.writes[1..] == [] && worst.writes[0].ran == MayRun(verb, path, t);
    }
  }

  lemma {:induction false} WorstIsPossible(verb: Verb, path: string, seen: seq<Turn>)
    requires !SafeRead(verb) && forall k :: 0 <= k < |seen| ==> TurnOk(verb, seen[k])
    ensures Possible(verb, path, Worst(verb, path, seen), seen)
    ensures TotalRan(Worst(verb, path, seen)) == MayRunCount(verb, path, seen)
  {
    if seen != [] {
      var worst, rest := Worst(verb, path, seen), Worst(verb, path, seen[1..]);
      WorstTurn(verb, path, seen[0]);
      WorstIsPossible(verb, path, seen[1..]);
      assert [seen[0]][1..] == [] && worst[0] == Worst(verb, path, [seen[0]])[0] && worst[1..] == rest;
      forall k | 0 <= k < |worst|
        ensures TurnOk(verb, worst[k]) && HonestFence(verb, path, worst[k]) && LooksLike(worst[k], seen[k])
      {
        if k > 0 { assert worst[k] == rest[k - 1] && seen[k] == seen[1..][k - 1]; }
      }
    }
  }

  /** A retried attempt at an operation that must not be repeated may have run it
      exactly when it shows as a write that failed as unreachable. */
  lemma RetriedTurnMayRun(verb: Verb, path: string, attempt: nat, t: Turn)
    requires TurnOk(verb, t) && !Repeatable(verb, path) && Pause(verb, path, attempt, t).Some?
    ensures MayRun(verb, path, t) <==> t.answer == Some(P.Refused(true))
  {
    assert t.answer == None ==> t.writes == [];
  }

  /** The attempts of a run: the retried ones, and the one that ended it, if one did. */
  function Made(turns: seq<Turn>, log: seq<Retried>, last: Option<real>): seq<Turn>
    requires |log| + (if last.Some? then 1 else 0) <= |turns|
  {
    turns[..|log| + (if last.Some? then 1 else 0)]
  }

  /** With honest fences alone: everything the client saw of a request admits only
      behaviours that ran the operation at most once, exactly when at most one
      attempt may have run it. So it does when no retried attempt shows as an
      unreachable write, and otherwise does not when a second attempt may have run too. */
  lemma {:induction false} WhatWasSeenDecides(verb: Verb, path: string, start: real, deadline: real, turns: seq<Turn>,
                           outcome: Outcome, log: seq<Retried>, last: Option<real>)
    requires RequestRun(verb, path, start, deadline, turns, outcome, log, last) && !Repeatable(verb, path)
    requires forall k :: 0 <= k < |turns| ==> TurnOk(verb, turns[k])
    ensures (forall behaviour :: Possible(verb, path, behaviour, Made(turns, log, last)) ==> TotalRan(behaviour) <= 1)
      <==> MayRunCount(verb, path, Made(turns, log, last)) <= 1
    ensures (forall k :: 0 <= k < |log| ==> turns[k].answer != Some(P.Refused(true))) ==>
      MayRunCount(verb, path, Made(turns, log, last)) <= 1
  {
    var seen := Made(turns, log, last);
    forall behaviour | Possible(verb, path, behaviour, seen)
      ensures TotalRan(behaviour) <= MayRunCount(verb, path, seen)
    {
      RunsAtMost(verb, path, behaviour, seen);
    }
    WorstIsPossible(verb, path, seen);
    if forall k :: 0 <= k < |log| ==> turns[k].answer != Some(P.Refused(true)) {
      forall k | 0 <= k < |log| ensures !MayRun(verb, path, seen[k]) {
        assert PacedTurn(verb, path, turns, start, deadline, log, k);
        RetriedTurnMayRun(verb, path, k, turns[k]);
      }
      OnlyLastMayRun(verb, path, seen);
    }
  }

  lemma {:induction false} OnlyLastMayRun(verb: Verb, path: string, turns: seq<Turn>)
    requires forall k :: 0 <= k < |turns| - 1 ==> !MayRun(verb, path, turns[k])
    ensures MayRunCount(verb, path, turns) <= 1
  {
    if |turns| == 1 {
      assert turns[1..] == [];
    } else if |turns| > 1 {
      OnlyLastMayRun(verb, path, turns[1..]);
    }
  }

  /** The trust is needed: a write that ran but failed as unreachable looks like
      a failed connect, so even a POST is sent a second time. */
  lemma UnreachableWriteIsRepeated(path: string)
    requires path != SANDBOXES
    ensures var ran := Turn([P.Wire(true, P.Refused(true))], Some(P.Refused(true)), false,
                            true, Body(false, false, Unlisted, false), None, 0.0, 0.0, 0.0);
      && TurnOk(POST, ran) && !Repeatable(POST, path) && !Honest(POST, path, ran)
      && Pause(POST, path, 0, ran) == Some(0.25)
      && TotalRan([ran, ran]) == 2
  {
    var ran := Turn([P.Wire(true, P.Refused(true))], Some(P.Refused(true)), false,
                    true, Body(false, false, Unlisted, false), None, 0.0, 0.0, 0.0);
    assert ran.writes[1..] == [] && [ran, ran][1..] == [ran] && [ran][1..] == [];
    assert Ran(ran.writes) == 1;
    assert TotalRan([ran]) == 1;
    assert Pow2(0) == 1.0;
  }
}
