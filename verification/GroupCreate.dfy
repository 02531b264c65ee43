/** Creating a group of sandboxes: one request, repeated until every member is
    placed (src/ucloud_sandboxes_sdk/client.py). */
module GroupCreate {
  import opened Prelude
  import R = RequestRetry

  // A member's status: usable, gone, or not (yet) usable.
  datatype Status = Placed | Deleted | Unplaced

  // `record` is None when the answer has no, or an empty, sandbox record.
  datatype Member = Member(id: string, status: Status, record: Option<string>)

  // A payload that `SandboxGroupStatus.from_payload` parses, or does not.
  datatype Payload = Parsed(members: seq<Member>) | Malformed

  // One attempt: its answer, how long it took, and how time went on after it.
  // `group` is the part of an error body that has "sandboxes", if any. A request
  // is `Broken` when it ends in an exception that is no API error: the deadline of
  // the request itself, an answer cut short, a body that is not UTF-8.
  datatype Answer =
    | Accepted(payload: Payload, elapsed: real)
    | Refused(status: Option<int>, body: R.Body, group: Option<Payload>,
              retryAfter: Option<real>, jitter: real, elapsed: real, overshoot: real)
    | Broken(elapsed: real)

  datatype Handle = Handle(id: string, record: Option<string>)

  // How a create ends. `GroupError` carries the group it knows of, if any;
  // `Escaped` is an exception of a broken request; `Waiting` says the environment's
  // script ended first.
  datatype Result =
    | Created(handles: seq<Handle>)
    | GroupError(group: Option<seq<Member>>)
    | Unavailable
    | InvalidPayload
    | Escaped
    | Expired
    | Waiting

  predicate Complete(members: seq<Member>) {
    forall k :: 0 <= k < |members| ==> members[k].status != Unplaced
  }

  ghost predicate AnswerOk(a: Answer) {
    && a.elapsed >= 0.0
    && (a.Refused? ==>
          && 0.0 <= a.jitter < 1.0 && a.overshoot >= 0.0
          && (a.retryAfter.Some? ==> 0.0 <= a.retryAfter.value <= 60.0))
  }

  /** Everything an answer says about the group, if it says something the client can parse. */
  function Told(a: Answer): Option<seq<Member>> {
    match a
    case Accepted(Parsed(members), _) => Some(members)
    case Refused(status, _, Some(Parsed(members)), _, _, _, _) =>
      if UnavailableStatus(status) then None else Some(members)
    case _ => None
  }

  predicate UnavailableStatus(status: Option<int>) { status.Some? && status.value in {404, 405, 501} }

  /** Every member line of every parsed answer, in order of arrival. */
  function History(answers: seq<Answer>): seq<Member> {
    if answers == [] then []
    else
      var told := Told(answers[|answers| - 1]);
      History(answers[..|answers| - 1]) + (if told.Some? then told.value else [])
  }

  /** The last record that was given for a member, looking back from the end. */
  function LastRecord(history: seq<Member>, id: string): Option<string> {
    if history == [] then None
    else
      var m := history[|history| - 1];
      if m.id == id && m.record.Some? then m.record else LastRecord(history[..|history| - 1], id)
  }

  /** The last record is one that was given, and no later line gave another. */
  lemma {:induction false} LastRecordMeaning(history: seq<Member>, id: string)
    ensures LastRecord(history, id).Some? <==> exists k :: 0 <= k < |history| && history[k].id == id && history[k].record.Some?
    ensures LastRecord(history, id).Some? ==>
      exists k :: 0 <= k < |history| && history[k].id == id && history[k].record == LastRecord(history, id)
        && forall l :: k < l < |history| && history[l].id == id ==> history[l].record == None
    decreases |history|
  {
    if history != [] {
      var n := |history| - 1;
      LastRecordMeaning(history[..n], id);
      if history[n].id != id || history[n].record.None? {
        if LastRecord(history, id).Some? {
          var k :| 0 <= k < n && history[..n][k].id == id && history[..n][k].record == LastRecord(history, id)
            && forall l :: k < l < n && history[..n][l].id == id ==> history[..n][l].record == None;
          assert history[k].id == id;
        }
      } else {
        assert history[n].record.Some?;
      }
    }
  }

  /** The answer asks for the identical request again. */
  predicate Asks(a: Answer, attempt: nat) {
    a.Refused? && a.status.Some?
    && R.ShouldRetry(a.status.value, a.body, attempt, R.POST, R.SANDBOXES, None)
  }

  /** The pause before the request is repeated. */
  function RepeatPause(a: Answer, attempt: nat): real
    requires a.Refused?
  {
    R.RetryDelay(attempt, a.retryAfter, a.jitter, R.POST, R.SANDBOXES)
  }

  class SandboxGroupCreate {
    const payload: string
    const deadline: real
    var attempt: nat
    var records: map<string, string>
    var last: Option<seq<Member>>

    constructor (payload: string, deadline: real)
      ensures this.payload == payload && this.deadline == deadline && attempt == 0 && records == map[] && last == None
    {
      this.payload, this.deadline := payload, deadline;
      attempt, records, last := 0, map[], None;
    }

    /** The records kept so far are the last ones of the history. */
    ghost predicate Keeps(history: seq<Member>)
      reads this
    {
      forall id :: (if id in records then Some(records[id]) else None) == LastRecord(history, id)
    }

    method Accept(members: seq<Member>, ghost history: seq<Member>)
      requires Keeps(history)
      modifies this`records, this`last
      ensures Keeps(history + members) && last == Some(members)
    {
      assert history + members[..0] == history;
      for k := 0 to |members|
        invariant Keeps(history + members[..k])
      {
        ghost var before := history + members[..k];
        assert (history + members[..k + 1])[..|before|] == before;
        assert (history + members[..k + 1])[|before|] == members[k];
        if members[k].record.Some? {
          records := records[members[k].id := members[k].record.value];
        }
      }
      assert members[..|members|] == members;
      last := Some(members);
    }

    /** What a refusal leads to: an error, or the pause before the same request. */
    method RetryDelay(a: Answer, now: real, ghost history: seq<Member>) returns (r: Result, pause: real)
      requires a.Refused? && AnswerOk(a) && Keeps(history)
      modifies this
      ensures Keeps(history + (if Told(a).Some? then Told(a).value else []))
      ensures last == if Told(a).Some? then Told(a) else old(last)
      ensures r == Waiting || r == Unavailable || r == InvalidPayload || r == GroupError(last)
      ensures r == Unavailable <==> UnavailableStatus(a.status)
      ensures r == InvalidPayload <==> !UnavailableStatus(a.status) && a.group == Some(Malformed)
      ensures r == Waiting ==>
        && Asks(a, old(attempt)) && pause == RepeatPause(a, old(attempt)) && now + pause < deadline && attempt == old(attempt) + 1
      ensures r.GroupError? ==> !Asks(a, old(attempt)) || now + RepeatPause(a, old(attempt)) >= deadline
    {
      pause := 0.0;
      assert history + [] == history;
      if UnavailableStatus(a.status) {
        return Unavailable, pause;
      }
      if a.group == Some(Malformed) {
        return InvalidPayload, pause;
      }
      if a.group.Some? {
        Accept(a.group.value.members, history);
      }
      if a.status.None? || !R.ShouldRetry(a.status.value, a.body, attempt, R.POST, R.SANDBOXES, None) {
        return GroupError(last), pause;
      }
      pause := R.RetryDelay(attempt, a.retryAfter, a.jitter, R.POST, R.SANDBOXES);
      R.RetryDelayBounds(attempt, a.retryAfter, a.jitter, R.POST, R.SANDBOXES);
      if Max(0.0, deadline - now) <= pause {
        return GroupError(last), pause;
      }
      attempt := attempt + 1;
      r := Waiting;
    }

    /** A handle per member that was not deleted, in member order. */
    method Handles(members: seq<Member>, ghost history: seq<Member>) returns (r: Result)
      requires Keeps(history)
      ensures r == if Complete(members) then Created(Expected(members, history)) else GroupError(Some(members))
    {
      if !Complete(members) {
        return GroupError(Some(members));
      }
      var handles := [];
      for k := 0 to |members|
        invariant handles == Expected(members[..k], history)
      {
        var m := members[k];
        assert members[..k + 1][..k] == members[..k];
        if m.status != Deleted {
          handles := handles + [Handle(m.id, if m.id in records then Some(records[m.id]) else None)];
        }
      }
      assert members[..|members|] == members;
      r := Created(handles);
    }
  }

  /** The handles a create owes its caller: each with the last record any answer gave. */
  function Expected(members: seq<Member>, history: seq<Member>): seq<Handle> {
    if members == [] then []
    else
      var m := members[|members| - 1];
      Expected(members[..|members| - 1], history)
      + (if m.status == Deleted then [] else [Handle(m.id, LastRecord(history, m.id))])
  }

  /** What the latest answer that could be parsed said. */
  function LastTold(answers: seq<Answer>): Option<seq<Member>> {
    if answers == [] then None
    else if Told(answers[|answers| - 1]).Some? then Told(answers[|answers| - 1])
    else LastTold(answers[..|answers| - 1])
  }

  predicate Unparsable(a: Answer) {
    match a
    case Accepted(payload, _) => payload == Malformed
    case Refused(status, _, group, _, _, _, _) => group == Some(Malformed) && !UnavailableStatus(status)
    case Broken(_) => false
  }

  // ----- whole creates -----

  /** The time when the request after some answers is due. */
  function Clock(answers: seq<Answer>, start: real, k: nat): real
    requires k <= |answers|
  {
    if k == 0 then start
    else
      var a := answers[k - 1];
      Clock(answers, start, k - 1) + a.elapsed + (if a.Refused? then RepeatPause(a, k - 1) + a.overshoot else 0.0)
  }

  /** The answer says nothing that ends the create, and the pause it asks for fits the deadline. */
  predicate Repeats(answers: seq<Answer>, start: real, deadline: real, k: nat)
    requires k < |answers|
  {
    var a := answers[k];
    && Asks(a, k) && !Unparsable(a) && !UnavailableStatus(a.status)
    && Clock(answers, start, k) + a.elapsed + RepeatPause(a, k) < deadline
  }

  /** The request after k answers is sent: all of them led to a repeat, in time. */
  ghost predicate Sent(answers: seq<Answer>, start: real, deadline: real, k: nat) {
    && k <= |answers|
    && (k == 0 || (Sent(answers, start, deadline, k - 1) && Clock(answers, start, k - 1) < deadline
                   && Repeats(answers, start, deadline, k - 1)))
  }

  /** A whole create that got `used` answers, and how the last of them, or the clock, ended it. */
  ghost predicate CreateRun(timeout: real, start: real, answers: seq<Answer>, r: Result, used: nat) {
    var deadline := start + Max(0.0, timeout);
    && used <= |answers|
    && match r
       case Expired => Sent(answers, start, deadline, used) && Clock(answers, start, used) >= deadline
       case Waiting => Sent(answers, start, deadline, used) && Clock(answers, start, used) < deadline && used == |answers|
       case _ =>
         && used > 0 && Sent(answers, start, deadline, used - 1) && Clock(answers, start, used - 1) < deadline
         && EndsWith(answers, start, deadline, used - 1, r)
  }

  /** The k-th answer ends the create with `r`. */
  ghost predicate EndsWith(answers: seq<Answer>, start: real, deadline: real, k: nat, r: Result)
    requires k < |answers|
  {
    var a := answers[k];
    match r
    case InvalidPayload => Unparsable(a)
    case Unavailable => a.Refused? && UnavailableStatus(a.status)
    case Escaped => a.Broken?
    case Created(handles) =>
      && a.Accepted? && a.payload.Parsed? && Complete(a.payload.members)
      && handles == Expected(a.payload.members, History(answers[..k + 1]))
    case GroupError(group) =>
      && group == LastTold(answers[..k + 1])
      && if a.Accepted? then a.payload.Parsed? && !Complete(a.payload.members)
         else a.Refused? && !Unparsable(a) && !UnavailableStatus(a.status) && !Repeats(answers, start, deadline, k)
    case _ => false
  }

  /** A whole create; `used` counts the answers it got and `sent` lists the
      payloads of its requests: one payload, repeated. */
  method Create(payload: string, timeout: real, start: real, answers: seq<Answer>)
      returns (r: Result, used: nat, sent: seq<string>)
    requires forall k :: 0 <= k < |answers| ==> AnswerOk(answers[k])
    ensures CreateRun(timeout, start, answers, r, used)
    ensures |sent| == used && forall k :: 0 <= k < used ==> sent[k] == payload
  {
    var state := new SandboxGroupCreate(payload, start + Max(0.0, timeout));
    var now := start;
    used, sent := 0, [];
    while used < |answers|
      invariant used <= |answers| && state.attempt == used && now == Clock(answers, start, used)
      invariant |sent| == used && forall k :: 0 <= k < used ==> sent[k] == payload
      invariant state.Keeps(History(answers[..used])) && state.last == LastTold(answers[..used])
      invariant Sent(answers, start, state.deadline, used)
    {
      if Max(0.0, state.deadline - now) <= 0.0 {
        return Expired, used, sent;
      }
      var a := answers[used];
      ghost var history := History(answers[..used]);
      assert answers[..used + 1][..used] == answers[..used];
      used, sent := used + 1, sent + [state.payload];
      now := now + a.elapsed;
      if a.Accepted? {
        if a.payload == Malformed {
          return InvalidPayload, used, sent;
        }
        state.Accept(a.payload.members, history);
        r := state.Handles(a.payload.members, history + a.payload.members);
        return;
      }
      if a.Broken? {
        return Escaped, used, sent;
      }
      var pause;
      r, pause := state.RetryDelay(a, now, history);
      if r != Waiting {
        return;
      }
      now := now + pause + a.overshoot;
    }
    r := if Max(0.0, state.deadline - now) <= 0.0 then Expired else Waiting;
  }

  // ----- which errors carry the status of the members -----

  /** The create ended with an error. */
  predicate Failed(r: Result) { !r.Created? && r != Waiting }

  predicate CarriesStatus(r: Result) { r.GroupError? && r.group.Some? }

  /** The last request broke, its answer cannot be parsed or says that groups are
      unavailable, or the deadline passed between its pause and the request that was
      to follow. */
  predicate Hides(timeout: real, start: real, answers: seq<Answer>, used: nat)
    requires 0 < used <= |answers|
  {
    var last, deadline := answers[used - 1], start + Max(0.0, timeout);
    || last.Broken? || Unparsable(last) || (last.Refused? && UnavailableStatus(last.status))
    || (Repeats(answers, start, deadline, used - 1) && Clock(answers, start, used) >= deadline)
  }

  /** After an answer that gave the members' status, the error of a failed create
      carries a status exactly when its end does not hide it; the one it carries
      is then the latest. */
  lemma StatusIsCarried(timeout: real, start: real, answers: seq<Answer>, r: Result, used: nat)
    requires CreateRun(timeout, start, answers, r, used) && Failed(r)
    requires exists k :: 0 <= k < used && Told(answers[k]).Some?
    ensures used > 0 && (CarriesStatus(r) <==> !Hides(timeout, start, answers, used))
    ensures CarriesStatus(r) ==> r.group == LastTold(answers[..used])
  {
    var k :| 0 <= k < used && Told(answers[k]).Some?;
    assert answers[..used][k] == answers[k];
    LastToldMeaning(answers[..used]);
  }

  /** A latest status is known exactly when some answer gave one. */
  lemma {:induction false} LastToldMeaning(answers: seq<Answer>)
    ensures LastTold(answers).Some? <==> exists k :: 0 <= k < |answers| && Told(answers[k]).Some?
    decreases |answers|
  {
    if answers != [] {
      LastToldMeaning(answers[..|answers| - 1]);
    }
  }

  // A refusal that tells the members' status and asks for a repeat after a
  // quarter of a second; the sleep overshoots by `overshoot`.
  function Telling(members: seq<Member>, overshoot: real): Answer {
    Refused(Some(503), R.Body(true, true, R.Unlisted, false), Some(Parsed(members)), None, 0.0, 0.0, overshoot)
  }

  lemma TellingRepeats(members: seq<Member>, overshoot: real, rest: seq<Answer>)
    ensures var answers := [Telling(members, overshoot)] + rest;
      && Repeats(answers, 0.0, 60.0, 0) && Clock(answers, 0.0, 0) == 0.0
      && Clock(answers, 0.0, 1) == 0.25 + overshoot
  {
    assert Pow2(0) == 1.0;
    assert ([Telling(members, overshoot)] + rest)[0] == Telling(members, overshoot);
  }

  /** When the answer after it cannot be parsed, every create ends with an error without that status. */
  lemma UnparsableAnswerHidesTheGroup(members: seq<Member>, r: Result, used: nat)
    requires CreateRun(60.0, 0.0, [Telling(members, 0.0), Accepted(Malformed, 0.0)], r, used)
    ensures used == 2 && Told([Telling(members, 0.0), Accepted(Malformed, 0.0)][0]) == Some(members)
    ensures r == InvalidPayload && !CarriesStatus(r)
  {
    var answers := [Telling(members, 0.0)] + [Accepted(Malformed, 0.0)];
    assert answers == [Telling(members, 0.0), Accepted(Malformed, 0.0)];
    TellingRepeats(members, 0.0, [Accepted(Malformed, 0.0)]);
    assert !Repeats(answers, 0.0, 60.0, 1);
  }

  /** When the next request breaks, too: its connection is refused, and the sleep
      after that passes the deadline. */
  lemma BrokenRequestHidesTheGroup(members: seq<Member>, r: Result, used: nat)
    requires CreateRun(60.0, 0.0, [Telling(members, 0.0), Broken(60.0)], r, used)
    ensures used == 2 && Told([Telling(members, 0.0), Broken(60.0)][0]) == Some(members)
    ensures r == Escaped && !CarriesStatus(r)
  {
    var answers := [Telling(members, 0.0)] + [Broken(60.0)];
    assert answers == [Telling(members, 0.0), Broken(60.0)];
    TellingRepeats(members, 0.0, [Broken(60.0)]);
    assert !Repeats(answers, 0.0, 60.0, 1);
  }

  /** When the sleep overshoots the deadline, too. */
  lemma LateWakeHidesTheGroup(members: seq<Member>, r: Result, used: nat)
    requires CreateRun(60.0, 0.0, [Telling(members, 60.0)], r, used)
    ensures used == 1 && Told([Telling(members, 60.0)][0]) == Some(members)
    ensures r == Expired && !CarriesStatus(r)
  {
    assert [Telling(members, 60.0)] + [] == [Telling(members, 60.0)];
    TellingRepeats(members, 60.0, []);
  }

  // ----- what a create comes to -----

  /** The handles are those of the members at these places: every one that was not
      deleted, in member order, each with its last record. */
  ghost predicate HandlesAt(members: seq<Member>, history: seq<Member>, handles: seq<Handle>, places: seq<nat>) {
    && |places| == |handles|
    && (forall i, j :: 0 <= i < j < |places| ==> places[i] < places[j])
    && (forall k: nat :: k in places <==> k < |members| && members[k].status != Deleted)
    && (forall i :: 0 <= i < |places| ==>
          places[i] < |members|
          && handles[i] == Handle(members[places[i]].id, LastRecord(history, members[places[i]].id)))
  }

  lemma {:induction false} ExpectedMeaning(members: seq<Member>, history: seq<Member>)
    ensures exists places :: HandlesAt(members, history, Expected(members, history), places)
    decreases |members|
  {
    if members == [] {
      assert HandlesAt(members, history, Expected(members, history), []);
    } else {
      var n := |members| - 1;
      ExpectedMeaning(members[..n], history);
      var before := Expected(members[..n], history);
      var places :| HandlesAt(members[..n], history, before, places);
      OneMoreMember(members, history, before, places);
    }
  }

  lemma {:induction false} OneMoreMember(members: seq<Member>, history: seq<Member>, before: seq<Handle>, places: seq<nat>)
    requires members != [] && HandlesAt(members[..|members| - 1], history, before, places)
    requires before == Expected(members[..|members| - 1], history)
    ensures exists more :: HandlesAt(members, history, Expected(members, history), more)
  {
    if members[|members| - 1].status == Deleted {
      assert before + [] == before;
      SamePlaces(members, history, before, places, Expected(members, history));
    } else {
      LastPlace(members, history, before, places, Expected(members, history));
    }
  }

  lemma SamePlaces(members: seq<Member>, history: seq<Member>, before: seq<Handle>, places: seq<nat>, after: seq<Handle>)
    requires members != [] && HandlesAt(members[..|members| - 1], history, before, places)
    requires members[|members| - 1].status == Deleted && after == before
    ensures HandlesAt(members, history, after, places)
  {
    var n := |members| - 1;
    forall k: nat ensures k in places <==> k < |members| && members[k].status != Deleted {
      assert k in places <==> k < n && members[..n][k].status != Deleted;
    }
  }

  lemma LastPlace(members: seq<Member>, history: seq<Member>, before: seq<Handle>, places: seq<nat>, after: seq<Handle>)
    requires members != [] && HandlesAt(members[..|members| - 1], history, before, places)
    requires members[|members| - 1].status != Deleted
    requires var id := members[|members| - 1].id; after == before + [Handle(id, LastRecord(history, id))]
    ensures HandlesAt(members, history, after, places + [|members| - 1])
  {
    var n := |members| - 1;
    forall k: nat ensures k in places + [n] <==> k < |members| && members[k].status != Deleted {
      assert k in places <==> k < n && members[..n][k].status != Deleted;
      assert k in places + [n] <==> k in places || k == n;
    }
  }

  /** An accepted answer ends the create: with a handle for every member that was not
      deleted, if none is unplaced, and otherwise with the group as it is. */
  lemma AcceptedAnswerEnds(timeout: real, start: real, answers: seq<Answer>, r: Result, used: nat, k: nat, members: seq<Member>)
    requires CreateRun(timeout, start, answers, r, used) && k < used
    requires answers[k].Accepted? && answers[k].payload == Parsed(members)
    ensures k == used - 1
    ensures if Unplaced in Statuses(members) then r == GroupError(Some(members))
            else r.Created? && exists places :: HandlesAt(members, History(answers[..used]), r.handles, places)
  {
    SentAll(timeout, start, answers, used, k);
    ExpectedMeaning(members, History(answers[..used]));
    assert answers[..used][k] == answers[k];
    assert Unplaced in Statuses(members) <==> !Complete(members) by {
      forall i | 0 <= i < |members| ensures Statuses(members)[i] == members[i].status {
      }
    }
  }

  function Statuses(members: seq<Member>): seq<Status> {
    seq(|members|, i requires 0 <= i < |members| => members[i].status)
  }

  lemma {:induction false} SentAll(timeout: real, start: real, answers: seq<Answer>, n: nat, k: nat)
    requires k < n <= |answers|
    ensures Sent(answers, start, start + Max(0.0, timeout), n) ==> Asks(answers[k], k)
    ensures k < n - 1 && Sent(answers, start, start + Max(0.0, timeout), n - 1) ==> Asks(answers[k], k)
  {
    if k < n - 1 {
      SentAll(timeout, start, answers, n - 1, k);
    }
  }

  /** A refusal asks for a repeat exactly when it has a transient status and calls
      itself retryable, or says that the job is unavailable. */
  lemma AsksMeaning(a: Answer, attempt: nat)
    ensures Asks(a, attempt) <==>
      && a.Refused? && a.status.Some?
      && ((a.status.value in {408, 425, 429, 500, 502, 503, 504} && a.body.isDict && a.body.retryable)
          || (a.status.value == 503 && a.body.jobUnavailable))
  {
  }

  /** The other ends: groups are unavailable for three statuses, a payload that cannot
      be parsed is reported as such, a broken request raises what broke it, and any
      other refusal raises the group error, unless it asks for a repeat in time. */
  lemma {:induction false} OtherAnswersEnd(timeout: real, start: real, answers: seq<Answer>, r: Result, used: nat)
    requires CreateRun(timeout, start, answers, r, used) && 0 < used && r != Expired && r != Waiting
    ensures var a := answers[used - 1];
      match a
      case Accepted(payload, _) => payload == Malformed ==> r == InvalidPayload
      case Broken(_) => r == Escaped
      case Refused(status, _, group, _, _, elapsed, _) =>
        if status in {Some(404), Some(405), Some(501)} then r == Unavailable
        else if group == Some(Malformed) then r == InvalidPayload
        else
          && r == GroupError(LastTold(answers[..used]))
          && (Asks(a, used - 1) ==>
                Clock(answers, start, used - 1) + elapsed + RepeatPause(a, used - 1) >= start + Max(0.0, timeout))
  {
    var a := answers[used - 1];
    if a.Refused? && a.status.Some? {
      assert forall n :: a.status == Some(n) <==> a.status.value == n;
    }
  }

  /** Every request is sent before the deadline, after the pause that the answer before it asked for. */
  lemma {:induction false} RequestsAreInTime(timeout: real, start: real, answers: seq<Answer>, r: Result, used: nat, k: nat)
    requires CreateRun(timeout, start, answers, r, used) && k < used
    ensures Clock(answers, start, k) < start + Max(0.0, timeout)
    ensures k + 1 < used ==>
      && Asks(answers[k], k)
      && Clock(answers, start, k + 1) == Clock(answers, start, k) + answers[k].elapsed + RepeatPause(answers[k], k) + answers[k].overshoot
    ensures r == Waiting ==> Clock(answers, start, used) < start + Max(0.0, timeout)
  {
    SentInTime(timeout, start, answers, used, k);
    SentAll(timeout, start, answers, used, k);
  }

  lemma {:induction false} SentInTime(timeout: real, start: real, answers: seq<Answer>, n: nat, k: nat)
    requires k < n <= |answers|
    ensures Sent(answers, start, start + Max(0.0, timeout), n) ==> Clock(answers, start, k) < start + Max(0.0, timeout)
    ensures k < n - 1 && Sent(answers, start, start + Max(0.0, timeout), n - 1) ==>
      Clock(answers, start, k) < start + Max(0.0, timeout)
  {
    if k < n - 1 {
      SentInTime(timeout, start, answers, n - 1, k);
    }
  }
}
