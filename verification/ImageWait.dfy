/** Waiting for registered images
    (src/ucloud_sandboxes_sdk/client.py). */
module ImageWait {
  import opened Prelude
  import opened SortedNames

  const BATCH: nat := 1000   // IMAGE_RECIPE_BATCH

  // An image's state; `settled` for ready, failed and unknown.
  datatype Status = Status(settled: bool, text: string)

  datatype Reply = Statuses(images: map<string, Status>) | Failure(transient: bool)

  // The answer to each request, by its number and the names it asks for.
  type Gateway = (nat, seq<string>) -> Reply

  // ----- names -----

  /** `list(dict.fromkeys(names))`: every name once, where it first stood. */
  function Dedupe(names: seq<string>): seq<string> {
    if names == [] then []
    else
      var n := |names| - 1;
      var before := Dedupe(names[..n]);
      if names[n] in before then before else before + [names[n]]
  }

  lemma {:induction false} DedupeKeepsNames(names: seq<string>)
    ensures Distinct(Dedupe(names)) && forall n :: n in Dedupe(names) <==> n in names
    decreases |names|
  {
    if names != [] {
      DedupeKeepsNames(names[..|names| - 1]);
      assert names == names[..|names| - 1] + [names[|names| - 1]];
    }
  }

  /** More names never change what the earlier ones come to: each stays where it first stood. */
  lemma {:induction false} DedupeKeepsOrder(names: seq<string>, k: nat)
    requires k <= |names|
    ensures Dedupe(names[..k]) <= Dedupe(names)
    ensures k < |names| && names[k] !in names[..k] ==> Dedupe(names[..k + 1]) == Dedupe(names[..k]) + [names[k]]
    decreases |names|
  {
    if k < |names| {
      var init := names[..|names| - 1];
      DedupeKeepsOrder(init, k);
      assert init[..k] == names[..k];
      DedupeKeepsNames(names[..k]);
      assert names[..k + 1][..k] == names[..k] && names[..k + 1][k] == names[k];
    } else {
      assert names[..k] == names;
    }
  }

  function Pending(names: seq<string>, settled: map<string, Status>): seq<string> {
    if names == [] then []
    else Pending(names[..|names| - 1], settled) + (if names[|names| - 1] in settled then [] else [names[|names| - 1]])
  }

  lemma {:induction false} PendingNames(names: seq<string>, settled: map<string, Status>)
    ensures forall n :: n in Pending(names, settled) <==> n in names && n !in settled
    decreases |names|
  {
    if names != [] {
      PendingNames(names[..|names| - 1], settled);
      assert names == names[..|names| - 1] + [names[|names| - 1]];
    }
  }

  lemma {:induction false} DedupeDistinct(names: seq<string>)
    requires Distinct(names)
    ensures Dedupe(names) == names
    decreases |names|
  {
    if names != [] {
      DedupeDistinct(names[..|names| - 1]);
      assert names == names[..|names| - 1] + [names[|names| - 1]];
    }
  }

  lemma {:induction false} PendingDistinct(names: seq<string>, settled: map<string, Status>)
    requires Distinct(names)
    ensures Distinct(Pending(names, settled))
    decreases |names|
  {
    if names != [] {
      PendingDistinct(names[..|names| - 1], settled);
      PendingNames(names[..|names| - 1], settled);
    }
  }

  /** `_image_names` accepts the names. */
  predicate ValidNames(names: seq<string>) { names != [] && "" !in names }

  ghost function Flatten(batches: seq<seq<string>>): seq<string> {
    if batches == [] then [] else Flatten(batches[..|batches| - 1]) + batches[|batches| - 1]
  }

  lemma {:induction false} FlattenAppend(batches: seq<seq<string>>, last: seq<string>)
    ensures Flatten(batches + [last]) == Flatten(batches) + last
  {
    assert (batches + [last])[..|batches|] == batches;
  }

  // ----- the gateway -----

  /** The gateway's statuses are about the names it was asked for. */
  ghost predicate AnswersOnlyAsked(reply: Gateway) {
    forall k, batch :: reply(k, batch).Statuses? ==> reply(k, batch).images.Keys <= NameSet(batch)
  }

  ghost function NameSet(names: seq<string>): set<string> { set n | n in names }

  lemma OnlyAsked(reply: Gateway, k: nat, batch: seq<string>)
    requires AnswersOnlyAsked(reply) && reply(k, batch).Statuses?
    ensures forall n :: n in reply(k, batch).images ==> n in batch
  {
    assert forall n :: n in reply(k, batch).images ==> n in reply(k, batch).images.Keys;
  }

  /** The k-th batch of names. */
  function Batch(names: seq<string>, k: nat): seq<string>
    requires k * BATCH < |names|
  {
    names[k * BATCH..if (k + 1) * BATCH <= |names| then (k + 1) * BATCH else |names|]
  }

  /** The statuses of several answers, a later one over an earlier one. */
  function Merge(reply: Gateway, first: nat, asked: seq<seq<string>>): map<string, Status> {
    if asked == [] then map[]
    else
      var n := |asked| - 1;
      var answer := reply(first + n, asked[n]);
      Merge(reply, first, asked[..n]) + (if answer.Statuses? then answer.images else map[])
  }

  function LastReply(reply: Gateway, first: nat, asked: seq<seq<string>>): Reply
    requires asked != []
  {
    reply(first + |asked| - 1, asked[|asked| - 1])
  }

  ghost predicate BatchAt(asked: seq<seq<string>>, names: seq<string>, k: nat)
    requires k < |asked|
  {
    k * BATCH < |names| && asked[k] == Batch(names, k)
  }

  /** The first batches of the names, in order. */
  ghost predicate BatchesOf(asked: seq<seq<string>>, names: seq<string>) {
    forall k :: 0 <= k < |asked| ==> BatchAt(asked, names, k)
  }

  ghost predicate AllAnswered(reply: Gateway, first: nat, asked: seq<seq<string>>, n: int) {
    n <= |asked| && forall k :: 0 <= k < n ==> reply(first + k, asked[k]).Statuses?
  }

  /** The requests for some names, of which the first is number `first`: the
      batches in order, until one fails or all names were asked for. */
  ghost predicate AskedFor(reply: Gateway, first: nat, asked: seq<seq<string>>, names: seq<string>) {
    && asked != [] && BatchesOf(asked, names) && AllAnswered(reply, first, asked, |asked| - 1)
    && (LastReply(reply, first, asked).Statuses? ==> |names| <= |asked| * BATCH)
  }

  lemma BatchAdded(asked: seq<seq<string>>, names: seq<string>)
    requires BatchesOf(asked, names) && |asked| * BATCH < |names|
    ensures BatchesOf(asked + [Batch(names, |asked|)], names)
  {
    var more := asked + [Batch(names, |asked|)];
    forall k | 0 <= k < |more| ensures BatchAt(more, names, k) {
      assert k < |asked| ==> BatchAt(asked, names, k);
    }
  }

  lemma {:induction false} AnswerAdded(reply: Gateway, first: nat, asked: seq<seq<string>>, batch: seq<string>)
    requires AllAnswered(reply, first, asked, |asked|)
    ensures var more := asked + [batch]; var answer := reply(first + |asked|, batch);
      && AllAnswered(reply, first, more, |asked|) && LastReply(reply, first, more) == answer
      && (answer.Statuses? ==>
            && AllAnswered(reply, first, more, |more|)
            && Merge(reply, first, more) == Merge(reply, first, asked) + answer.images)
  {
    assert (asked + [batch])[..|asked|] == asked;
  }

  datatype Failed = BadNames | Request(transient: bool)

  /** `ensure_images`: asks for all names, batch by batch, until a request fails,
      and returns what the answers say. */
  method EnsureImages(given: seq<string>, reply: Gateway, first: nat)
      returns (failed: Option<Failed>, statuses: map<string, Status>, asked: seq<seq<string>>)
    ensures !ValidNames(given) ==> failed == Some(BadNames) && asked == []
    ensures ValidNames(given) ==>
      && AskedFor(reply, first, asked, Dedupe(given))
      && match LastReply(reply, first, asked)
         case Failure(transient) => failed == Some(Request(transient))
         case Statuses(_) => failed == None && statuses == Merge(reply, first, asked)
  {
    statuses, asked := map[], [];
    if !ValidNames(given) {
      return Some(BadNames), statuses, asked;
    }
    var names := Dedupe(given);
    DedupeKeepsNames(given);
    assert given[0] in names;
    while |asked| * BATCH < |names|
      invariant BatchesOf(asked, names) && AllAnswered(reply, first, asked, |asked|)
      invariant statuses == Merge(reply, first, asked)
      decreases |names| - |asked| * BATCH
    {
      var batch := Batch(names, |asked|);
      var answer := reply(first + |asked|, batch);
      BatchAdded(asked, names);
      AnswerAdded(reply, first, asked, batch);
      asked := asked + [batch];
      if answer.Failure? {
        return Some(Request(answer.transient)), statuses, asked;
      }
      statuses := statuses + answer.images;
    }
    failed := None;
  }

  /** The batches partition the names: in order, none empty, none over the limit;
      without a failed request, all of them. */
  lemma {:induction false} BatchesPartition(reply: Gateway, first: nat, asked: seq<seq<string>>, names: seq<string>)
    requires AskedFor(reply, first, asked, names)
    ensures Flatten(asked) <= names && forall k :: 0 <= k < |asked| ==> 0 < |asked[k]| <= 1000
    ensures forall k :: 0 <= k < |asked| - 1 ==> |asked[k]| == 1000
    ensures LastReply(reply, first, asked).Statuses? ==> Flatten(asked) == names
  {
    BatchesFlatten(asked, names);
    forall k | 0 <= k < |asked| - 1 ensures |asked[k]| == 1000 {
      assert BatchAt(asked, names, k) && BatchAt(asked, names, k + 1);
    }
  }

  lemma {:induction false} BatchesFlatten(asked: seq<seq<string>>, names: seq<string>)
    requires BatchesOf(asked, names)
    ensures Flatten(asked) == if |asked| * BATCH <= |names| then names[..|asked| * BATCH] else names
    ensures forall k :: 0 <= k < |asked| ==> 0 < |asked[k]| <= BATCH
  {
    if asked != [] {
      var n := |asked| - 1;
      forall k | 0 <= k < n ensures BatchAt(asked[..n], names, k) {
        assert BatchAt(asked, names, k);
      }
      BatchesFlatten(asked[..n], names);
      assert BatchAt(asked, names, n);
      var end := if |asked| * BATCH <= |names| then |asked| * BATCH else |names|;
      assert names[..n * BATCH] + names[n * BATCH..end] == names[..end];
    }
  }

  // ----- waiting for all of them -----

  // One round of the wait: what was settled before it, the number of its first
  // request, and the batches it asked for.
  datatype Round = Round(settled: map<string, Status>, first: nat, asked: seq<seq<string>>)

  // `Rejected` is the ValueError of an empty or ill-named request, `NameMissing`
  // the KeyError of a name that has no settled status.
  datatype WaitEnd =
    | Done(statuses: seq<(string, Status)>) | Rejected | NameMissing | Raised | TimedOut | RoundsUsedUp

  function Settle(settled: map<string, Status>, current: map<string, Status>): map<string, Status> {
    settled + (map n | n in current && current[n].settled :: current[n])
  }

  /** What a round learned: nothing when one of its requests failed. */
  function Learned(reply: Gateway, r: Round): map<string, Status> {
    if r.asked == [] || LastReply(reply, r.first, r.asked).Failure? then map[] else Merge(reply, r.first, r.asked)
  }

  /** What is settled after the rounds of a log. */
  function SettledAfter(reply: Gateway, log: seq<Round>): map<string, Status> {
    if log == [] then map[] else Settle(log[|log| - 1].settled, Learned(reply, log[|log| - 1]))
  }

  function RequestsAfter(log: seq<Round>): nat {
    if log == [] then 0 else log[|log| - 1].first + |log[|log| - 1].asked|
  }

  /** A round starts where the rounds before it ended, and asks exactly for what is not settled. */
  ghost predicate RoundOk(names: seq<string>, reply: Gateway, before: seq<Round>, r: Round) {
    && r.settled == SettledAfter(reply, before) && r.first == RequestsAfter(before)
    && AskedFor(reply, r.first, r.asked, Pending(names, r.settled))
  }

  ghost predicate RoundsOk(names: seq<string>, reply: Gateway, log: seq<Round>) {
    log == [] || (RoundsOk(names, reply, log[..|log| - 1]) && RoundOk(names, reply, log[..|log| - 1], log[|log| - 1]))
  }

  predicate Fatal(reply: Gateway, r: Round) {
    r.asked != [] && LastReply(reply, r.first, r.asked) == Failure(false)
  }

  predicate Late(lateAt: Option<nat>, r: nat) { lateAt.Some? && r >= lateAt.value }

  /** The round, number n, did not end the wait. */
  ghost predicate GoesOn(names: seq<string>, reply: Gateway, lateAt: Option<nat>, r: Round, n: nat) {
    !Fatal(reply, r) && !Late(lateAt, n) && |Settle(r.settled, Learned(reply, r))| != |names|
  }

  /** The settled statuses in the order of the names. */
  function Listing(names: seq<string>, settled: map<string, Status>): (r: seq<(string, Status)>)
    requires forall n :: n in names ==> n in settled
    ensures |r| == |names| && forall k :: 0 <= k < |names| ==> r[k].0 == names[k] && r[k].1 == settled[names[k]]
  {
    seq(|names|, i requires 0 <= i < |names| => (names[i], settled[names[i]]))
  }

  /** How a round that left `settled` ended the wait for some names. */
  ghost predicate EndsWith(names: seq<string>, settled: map<string, Status>, fatal: bool, late: bool, end: WaitEnd) {
    match end
    case Raised => fatal
    case Done(statuses) =>
      !fatal && |settled| == |names| && (forall n :: n in names ==> n in settled) && statuses == Listing(names, settled)
    case NameMissing => !fatal && |settled| == |names| && exists n :: n in names && n !in settled
    case TimedOut => !fatal && |settled| != |names| && late
    case _ => false
  }

  /** The wait has made these rounds and none of them ended it. */
  ghost predicate Waiting(names: seq<string>, reply: Gateway, lateAt: Option<nat>, log: seq<Round>) {
    log == []
    || (var n := |log| - 1;
        && Waiting(names, reply, lateAt, log[..n])
        && RoundOk(names, reply, log[..n], log[n]) && GoesOn(names, reply, lateAt, log[n], n))
  }

  /** The wait's last round ended it. */
  ghost predicate Ended(names: seq<string>, reply: Gateway, lateAt: Option<nat>, log: seq<Round>, end: WaitEnd) {
    && log != []
    && var n := |log| - 1;
       && Waiting(names, reply, lateAt, log[..n]) && RoundOk(names, reply, log[..n], log[n])
       && EndsWith(names, SettledAfter(reply, log), Fatal(reply, log[n]), Late(lateAt, n), end)
  }

  /** A whole wait for distinct names: the deadline passes in round `lateAt`, if
      ever, and the environment's script lasts for `rounds` rounds. */
  ghost predicate NamesRun(names: seq<string>, reply: Gateway, lateAt: Option<nat>, rounds: nat, end: WaitEnd, log: seq<Round>) {
    match end
    case RoundsUsedUp => |log| == rounds && Waiting(names, reply, lateAt, log)
    case Rejected =>
      |log| < rounds && Waiting(names, reply, lateAt, log) && Pending(names, SettledAfter(reply, log)) == []
    case _ => |log| <= rounds && Ended(names, reply, lateAt, log, end)
  }

  ghost predicate WaitRun(given: seq<string>, reply: Gateway, lateAt: Option<nat>, rounds: nat, end: WaitEnd, log: seq<Round>) {
    if !ValidNames(given) then end == Rejected && log == []
    else NamesRun(Dedupe(given), reply, lateAt, rounds, end, log)
  }

  /** `wait_for_images` */
  method WaitForImages(given: seq<string>, reply: Gateway, lateAt: Option<nat>, rounds: nat)
      returns (end: WaitEnd, log: seq<Round>)
    ensures WaitRun(given, reply, lateAt, rounds, end, log)
  {
    if !ValidNames(given) {
      return Rejected, [];
    }
    DedupeKeepsNames(given);
    end, log := WaitForNames(Dedupe(given), reply, lateAt, rounds);
  }

  method WaitForNames(names: seq<string>, reply: Gateway, lateAt: Option<nat>, rounds: nat)
      returns (end: WaitEnd, log: seq<Round>)
    requires Distinct(names) && "" !in names
    ensures NamesRun(names, reply, lateAt, rounds, end, log)
  {
    log := [];
    var settled: map<string, Status> := map[];
    var round, requests: nat := 0, 0;
    while round < rounds
      invariant round == |log| && round <= rounds && Waiting(names, reply, lateAt, log)
      invariant settled == SettledAfter(reply, log) && requests == RequestsAfter(log)
    {
      ghost var before := log;
      var rejected, fatal, settled', asked := OneRound(names, reply, settled, requests);
      if rejected {
        return Rejected, log;
      }
      log := log + [Round(settled, requests, asked)];
      NextRound(names, reply, lateAt, before, Round(settled, requests, asked));
      LastRound(names, reply, lateAt, before, Round(settled, requests, asked));
      if fatal {
        return Raised, log;
      }
      round, requests, settled := round + 1, requests + |asked|, settled';
      if |settled| == |names| {
        if forall n :: n in names ==> n in settled {
          return Done(Listing(names, settled)), log;
        }
        return NameMissing, log;
      }
      if lateAt.Some? && round > lateAt.value {
        return TimedOut, log;
      }
    }
    end := RoundsUsedUp;
  }

  /** The requests of one round, and what is settled after it. */
  method OneRound(names: seq<string>, reply: Gateway, settled: map<string, Status>, first: nat)
      returns (rejected: bool, fatal: bool, settled': map<string, Status>, asked: seq<seq<string>>)
    requires Distinct(names) && "" !in names
    ensures rejected <==> Pending(names, settled) == []
    ensures !rejected ==>
      && AskedFor(reply, first, asked, Pending(names, settled))
      && fatal == Fatal(reply, Round(settled, first, asked))
      && settled' == Settle(settled, Learned(reply, Round(settled, first, asked)))
  {
    PendingIsDistinct(names, settled);
    var failed, current;
    failed, current, asked := EnsureImages(Pending(names, settled), reply, first);
    rejected, fatal, settled' := failed == Some(BadNames), failed == Some(Request(false)), settled;
    if !rejected {
      RoundLearns(reply, settled, first, asked, failed, current);
      settled' := Settle(settled, if failed.Some? then map[] else current);
    }
  }

  lemma {:induction false} RoundLearns(reply: Gateway, settled: map<string, Status>, first: nat, asked: seq<seq<string>>,
                    failed: Option<Failed>, current: map<string, Status>)
    requires asked != []
    requires match LastReply(reply, first, asked)
             case Failure(transient) => failed == Some(Request(transient))
             case Statuses(_) => failed == None && current == Merge(reply, first, asked)
    ensures var r := Round(settled, first, asked);
      && Fatal(reply, r) == (failed == Some(Request(false)))
      && Learned(reply, r) == if failed.Some? then map[] else current
  {
  }

  lemma {:induction false} NextRound(names: seq<string>, reply: Gateway, lateAt: Option<nat>, before: seq<Round>, r: Round)
    requires Waiting(names, reply, lateAt, before) && RoundOk(names, reply, before, r)
    ensures var log := before + [r];
      && SettledAfter(reply, log) == Settle(r.settled, Learned(reply, r)) && RequestsAfter(log) == r.first + |r.asked|
      && (GoesOn(names, reply, lateAt, r, |before|) ==> Waiting(names, reply, lateAt, log))
  {
    assert (before + [r])[..|before|] == before && (before + [r])[|before|] == r;
  }

  lemma {:induction false} LastRound(names: seq<string>, reply: Gateway, lateAt: Option<nat>, before: seq<Round>, r: Round)
    requires Waiting(names, reply, lateAt, before) && RoundOk(names, reply, before, r)
    ensures var now := Settle(r.settled, Learned(reply, r));
      forall end :: EndsWith(names, now, Fatal(reply, r), Late(lateAt, |before|), end) ==>
        Ended(names, reply, lateAt, before + [r], end)
  {
    var log := before + [r];
    assert log[..|before|] == before && log[|before|] == r && |log| - 1 == |before|;
    assert SettledAfter(reply, log) == Settle(r.settled, Learned(reply, r));
  }

  lemma {:induction false} PendingIsDistinct(names: seq<string>, settled: map<string, Status>)
    requires Distinct(names) && "" !in names
    ensures Dedupe(Pending(names, settled)) == Pending(names, settled)
    ensures ValidNames(Pending(names, settled)) <==> Pending(names, settled) != []
  {
    PendingNames(names, settled);
    PendingDistinct(names, settled);
    DedupeDistinct(Pending(names, settled));
  }

  // ----- what holds of every wait -----

  ghost predicate Extends(big: map<string, Status>, small: map<string, Status>) {
    forall n :: n in small ==> n in big && big[n] == small[n]
  }

  lemma {:induction false} RoundAt(names: seq<string>, reply: Gateway, log: seq<Round>, r: nat)
    requires RoundsOk(names, reply, log) && r < |log|
    ensures RoundsOk(names, reply, log[..r]) && RoundOk(names, reply, log[..r], log[r])
    decreases |log|
  {
    if r < |log| - 1 {
      var before := log[..|log| - 1];
      RoundAt(names, reply, before, r);
      assert before[..r] == log[..r];
    }
  }

  lemma {:induction false} WaitingRounds(names: seq<string>, reply: Gateway, lateAt: Option<nat>, log: seq<Round>)
    requires Waiting(names, reply, lateAt, log)
    ensures RoundsOk(names, reply, log)
    ensures log != [] ==> |SettledAfter(reply, log)| != |names|
    decreases |log|
  {
    if log != [] {
      WaitingRounds(names, reply, lateAt, log[..|log| - 1]);
    }
  }

  /** No name is ever unsettled. */
  lemma {:induction false} SettledKeepsNames(names: seq<string>, reply: Gateway, log: seq<Round>, q: nat)
    requires RoundsOk(names, reply, log) && q <= |log|
    ensures SettledAfter(reply, log[..q]).Keys <= SettledAfter(reply, log).Keys
    decreases |log|
  {
    if q == |log| {
      assert log[..q] == log;
    } else {
      var before := log[..|log| - 1];
      SettledKeepsNames(names, reply, before, q);
      assert before[..q] == log[..q];
    }
  }

  /** Once a name is settled, no later round asks for it. */
  lemma {:induction false} SettledIsNeverAsked(names: seq<string>, reply: Gateway, log: seq<Round>, q: nat, r: nat, n: string)
    requires RoundsOk(names, reply, log) && q <= r < |log| && n in SettledAfter(reply, log[..q])
    ensures n !in Flatten(log[r].asked)
  {
    RoundAt(names, reply, log, r);
    SettledKeepsNames(names, reply, log[..r], q);
    assert log[..r][..q] == log[..q];
    PendingNames(names, log[r].settled);
    BatchesPartition(reply, log[r].first, log[r].asked, Pending(names, log[r].settled));
    assert n in SettledAfter(reply, log[..r]).Keys;
  }

  lemma {:induction false} MergeOnlyAsked(reply: Gateway, first: nat, asked: seq<seq<string>>)
    requires AnswersOnlyAsked(reply)
    ensures forall n :: n in Merge(reply, first, asked) ==> n in Flatten(asked)
  {
    if asked != [] {
      var k := |asked| - 1;
      MergeOnlyAsked(reply, first, asked[..k]);
      if reply(first + k, asked[k]).Statuses? {
        OnlyAsked(reply, first + k, asked[k]);
      }
    }
  }

  /** When the gateway answers only for the names asked, a round settles only names that were not. */
  lemma LearnedIsPending(names: seq<string>, reply: Gateway, before: seq<Round>, r: Round)
    requires AnswersOnlyAsked(reply) && RoundOk(names, reply, before, r)
    ensures forall n :: n in Learned(reply, r) ==> n in names && n !in r.settled
  {
    PendingNames(names, r.settled);
    BatchesPartition(reply, r.first, r.asked, Pending(names, r.settled));
    MergeOnlyAsked(reply, r.first, r.asked);
  }

  /** Then what is settled only grows, a settled status never changes, and only requested names are settled. */
  lemma {:induction false} SettledOnlyGrows(names: seq<string>, reply: Gateway, log: seq<Round>, q: nat)
    requires AnswersOnlyAsked(reply) && RoundsOk(names, reply, log) && q <= |log|
    ensures Extends(SettledAfter(reply, log), SettledAfter(reply, log[..q]))
    ensures forall n :: n in SettledAfter(reply, log) ==> n in names && SettledAfter(reply, log)[n].settled
    decreases |log|
  {
    if log != [] {
      var before, last := log[..|log| - 1], log[|log| - 1];
      SettledOnlyGrows(names, reply, before, if q < |log| then q else |before|);
      LearnedIsPending(names, reply, before, last);
      assert q < |log| ==> before[..q] == log[..q];
      assert q == |log| ==> log[..q] == log;
    }
  }

  lemma {:induction false} UnsettledIsPending(names: seq<string>, settled: map<string, Status>)
    requires Distinct(names) && |settled| != |names| && forall n :: n in settled ==> n in names
    ensures Pending(names, settled) != []
  {
    SomeUnsettled(names, settled);
    var n :| n in NameSet(names) && n !in settled.Keys;
    PendingNames(names, settled);
    assert n in Pending(names, settled);
  }

  lemma {:induction false} RoundsOfRun(given: seq<string>, reply: Gateway, lateAt: Option<nat>, rounds: nat,
                                       end: WaitEnd, log: seq<Round>)
    requires WaitRun(given, reply, lateAt, rounds, end, log) && ValidNames(given)
    ensures RoundsOk(Dedupe(given), reply, log)
    ensures end == Rejected ==> |SettledAfter(reply, log)| != |Dedupe(given)|
  {
    var names := Dedupe(given);
    DedupeKeepsNames(given);
    assert given[0] in names;
    if end == Rejected || end == RoundsUsedUp {
      WaitingRounds(names, reply, lateAt, log);
    } else {
      WaitingRounds(names, reply, lateAt, log[..|log| - 1]);
    }
  }

  /** Then a wait for valid names is never rejected and misses no name: a normal
      end has exactly the requested names, each with a settled status, and a
      timeout really leaves one unsettled. */
  lemma WaitCoversTheNames(given: seq<string>, reply: Gateway, lateAt: Option<nat>, rounds: nat,
                           end: WaitEnd, log: seq<Round>)
    requires WaitRun(given, reply, lateAt, rounds, end, log) && AnswersOnlyAsked(reply) && ValidNames(given)
    ensures end != Rejected && end != NameMissing
    ensures var settled := SettledAfter(reply, log);
      && (end.Done? ==> settled.Keys == NameSet(given))
      && (end == TimedOut ==> settled.Keys < NameSet(given))
      && forall n :: n in settled ==> n in given && settled[n].settled
  {
    var names, settled := Dedupe(given), SettledAfter(reply, log);
    DedupeKeepsNames(given);
    assert NameSet(names) == NameSet(given);
    RoundsOfRun(given, reply, lateAt, rounds, end, log);
    SettledOnlyGrows(names, reply, log, 0);
    if |settled| == |names| {
      AllSettled(names, settled);
    } else {
      SomeUnsettled(names, settled);
      UnsettledIsPending(names, settled);
    }
  }

  lemma {:induction false} NameCount(names: seq<string>)
    requires Distinct(names)
    ensures |NameSet(names)| == |names|
  {
    if names != [] {
      NameCount(names[1..]);
      assert names[0] !in names[1..];
      assert NameSet(names) == NameSet(names[1..]) + {names[0]};
    }
  }

  lemma SubsetOfSameSize(a: set<string>, b: set<string>)
    requires a <= b && |a| == |b|
    ensures a == b
  {
    assert b == a + (b - a);
  }

  /** Counting settled names finds out whether all are settled exactly when
      nothing but requested names was ever settled. */
  lemma CountIsRight(names: seq<string>, settled: map<string, Status>)
    requires Distinct(names) && |settled| == |names|
    ensures (forall n :: n in names ==> n in settled) <==> (forall n :: n in settled ==> n in names)
  {
    NameCount(names);
    var keys, all := settled.Keys, NameSet(names);
    assert |keys| == |settled|;
    assert (forall n :: n in names ==> n in settled) <==> all <= keys;
    assert (forall n :: n in settled ==> n in names) <==> keys <= all;
    if keys <= all {
      SubsetOfSameSize(keys, all);
    }
    if all <= keys {
      SubsetOfSameSize(all, keys);
    }
  }

  lemma AllSettled(names: seq<string>, settled: map<string, Status>)
    requires Distinct(names) && |settled| == |names| && forall n :: n in settled ==> n in names
    ensures settled.Keys == NameSet(names) && forall n :: n in names ==> n in settled
  {
    CountIsRight(names, settled);
    assert settled.Keys <= NameSet(names) && NameSet(names) <= settled.Keys;
  }

  lemma SomeUnsettled(names: seq<string>, settled: map<string, Status>)
    requires Distinct(names) && |settled| != |names| && forall n :: n in settled ==> n in names
    ensures settled.Keys < NameSet(names)
  {
    NameCount(names);
    assert |settled.Keys| == |settled|;
    assert settled.Keys <= NameSet(names) && settled.Keys != NameSet(names);
  }

  /** A wait whose count is reached, or that has nothing left to ask for, ends normally
      exactly when only requested names were settled. Otherwise a requested name is missing,
      or too many names are settled and the next round asks for nothing. */
  lemma CountDecides(given: seq<string>, reply: Gateway, lateAt: Option<nat>, rounds: nat,
                     end: WaitEnd, log: seq<Round>)
    requires WaitRun(given, reply, lateAt, rounds, end, log) && ValidNames(given)
    requires end.Done? || end == NameMissing || end == Rejected
    ensures end.Done? <==> forall n :: n in SettledAfter(reply, log) ==> n in given
  {
    var names, settled := Dedupe(given), SettledAfter(reply, log);
    DedupeKeepsNames(given);
    if end == Rejected {
      RoundsOfRun(given, reply, lateAt, rounds, end, log);
      if forall n :: n in settled ==> n in names {
        UnsettledIsPending(names, settled);
        assert false;
      }
    } else {
      CountIsRight(names, settled);
    }
  }

  /** A gateway that answers every request with the status of another name. */
  function Stranger(): Gateway {
    (k, batch) => Statuses(map["other" := Status(true, "ready")])
  }

  lemma OneBatch(asked: seq<seq<string>>, names: seq<string>)
    requires BatchesOf(asked, names) && |names| <= BATCH
    ensures |asked| <= 1
  {
    assert |asked| > 1 ==> BatchAt(asked, names, 1);
  }

  lemma OnePending()
    ensures Dedupe(["asked"]) == ["asked"] && Pending(["asked"], map[]) == ["asked"]
  {
    DedupeDistinct(["asked"]);
    assert ["asked"][..0] == [];
  }

  lemma StrangersFirstRound(r: Round)
    requires RoundOk(["asked"], Stranger(), [], r)
    ensures Settle(r.settled, Learned(Stranger(), r)) == map["other" := Status(true, "ready")]
    ensures !Fatal(Stranger(), r)
  {
    OnePending();
    OneBatch(r.asked, ["asked"]);
    assert r.asked[..0] == [];
    assert Merge(Stranger(), r.first, r.asked) == map["other" := Status(true, "ready")];
  }

  lemma {:induction false} StrangersEndAtOnce(lateAt: Option<nat>, log: seq<Round>)
    ensures Waiting(["asked"], Stranger(), lateAt, log) ==> log == []
    decreases |log|
  {
    if log != [] {
      StrangersEndAtOnce(lateAt, log[..|log| - 1]);
      if RoundOk(["asked"], Stranger(), [], log[0]) {
        StrangersFirstRound(log[0]);
      }
      assert |log| == 1 ==> log[..0] == [];
    }
  }

  lemma StrangersVerdict(r: Round, late: bool, end: WaitEnd)
    requires RoundOk(["asked"], Stranger(), [], r)
    requires EndsWith(["asked"], Settle(r.settled, Learned(Stranger(), r)), Fatal(Stranger(), r), late, end)
    ensures end == NameMissing
  {
    StrangersFirstRound(r);
    assert "asked" in ["asked"];
  }

  lemma StrangersEnded(lateAt: Option<nat>, end: WaitEnd, log: seq<Round>)
    requires Ended(["asked"], Stranger(), lateAt, log, end)
    ensures end == NameMissing && |log| == 1
  {
    StrangersEndAtOnce(lateAt, log[..|log| - 1]);
    assert |log[..|log| - 1]| == 0;
    StrangersVerdict(log[0], Late(lateAt, 0), end);
  }

  /** It makes the count right while the requested name is missing: every wait for
      one name then ends with a missing name, in its first round. */
  lemma StrangersFoolTheCount(lateAt: Option<nat>, rounds: nat, end: WaitEnd, log: seq<Round>)
    requires WaitRun(["asked"], Stranger(), lateAt, rounds, end, log) && rounds > 0
    ensures end == NameMissing && |log| == 1
  {
    OnePending();
    StrangersEndAtOnce(lateAt, log);
    if end != RoundsUsedUp && end != Rejected {
      StrangersEnded(lateAt, end, log);
    }
  }
  function Both(): map<string, Status> {
    map["asked" := Status(true, "ready"), "other" := Status(true, "ready")]
  }

  /** A gateway that answers for the requested name and for another one. */
  function Company(): Gateway { (k, batch) => Statuses(Both()) }

  lemma BothIsTooMany()
    ensures |Both()| == 2 && Settle(map[], Both()) == Both() && Pending(["asked"], Both()) == []
  {
    assert Both().Keys == {"asked", "other"} && |Both()| == |Both().Keys|;
    assert ["asked"][..0] == [];
  }

  lemma CompanysFirstRound(r: Round)
    requires RoundOk(["asked"], Company(), [], r)
    ensures Settle(r.settled, Learned(Company(), r)) == Both() && !Fatal(Company(), r)
  {
    OnePending();
    OneBatch(r.asked, ["asked"]);
    BothIsTooMany();
    assert r.asked[..0] == [];
    assert Merge(Company(), r.first, r.asked) == map[] + Both() == Both();
  }

  lemma {:induction false} RoundsAsk(names: seq<string>, reply: Gateway, before: seq<Round>, r: Round)
    requires RoundOk(names, reply, before, r)
    ensures Pending(names, SettledAfter(reply, before)) != []
  {
    assert BatchAt(r.asked, Pending(names, r.settled), 0);
  }

  lemma CompanyAskedOnce(log: seq<Round>)
    requires |log| == 1 && RoundOk(["asked"], Company(), [], log[0])
    ensures SettledAfter(Company(), log) == Both()
  {
    CompanysFirstRound(log[0]);
  }

  lemma CompanyAsksNoMore(before: seq<Round>, r: Round)
    requires |before| == 1 && RoundOk(["asked"], Company(), [], before[0])
    ensures !RoundOk(["asked"], Company(), before, r)
  {
    CompanyAskedOnce(before);
    BothIsTooMany();
    if RoundOk(["asked"], Company(), before, r) {
      RoundsAsk(["asked"], Company(), before, r);
      assert false;
    }
  }

  /** Nothing is asked for after the first round, so no wait makes a second one. */
  lemma {:induction false} CompanyAsksOnce(lateAt: Option<nat>, log: seq<Round>)
    requires Waiting(["asked"], Company(), lateAt, log)
    ensures |log| <= 1
    ensures |log| == 1 ==> RoundOk(["asked"], Company(), [], log[0])
    decreases |log|
  {
    if log != [] {
      CompanyAsksOnce(lateAt, log[..|log| - 1]);
      NoRoundAfterFirst(log[..|log| - 1], log[|log| - 1]);
    }
  }

  lemma NoRoundAfterFirst(before: seq<Round>, r: Round)
    requires |before| <= 1 && (|before| == 1 ==> RoundOk(["asked"], Company(), [], before[0]))
    requires RoundOk(["asked"], Company(), before, r)
    ensures before == []
  {
    if |before| == 1 {
      CompanyAsksNoMore(before, r);
    }
  }

  lemma CompanyEndsNoRound(r: Round, end: WaitEnd)
    requires RoundOk(["asked"], Company(), [], r)
    ensures !EndsWith(["asked"], Settle(r.settled, Learned(Company(), r)), Fatal(Company(), r), false, end)
  {
    CompanysFirstRound(r);
    BothIsTooMany();
  }

  lemma CompanyNeverEnds(end: WaitEnd, log: seq<Round>)
    ensures !Ended(["asked"], Company(), None, log, end)
  {
    if Ended(["asked"], Company(), None, log, end) {
      CompanyAsksOnce(None, log[..|log| - 1]);
      NoRoundAfterFirst(log[..|log| - 1], log[|log| - 1]);
      CompanyEndsNoRound(log[|log| - 1], end);
    }
  }

  /** The requested name is ready, but two names are settled: without a deadline,
      every wait for one name then ends with the refusal of an empty request. */
  lemma CompanyFoolsTheCount(rounds: nat, end: WaitEnd, log: seq<Round>)
    requires WaitRun(["asked"], Company(), None, rounds, end, log) && rounds >= 2
    ensures end == Rejected && |log| == 1 && "asked" in SettledAfter(Company(), log)
  {
    OnePending();
    CompanyNeverEnds(end, log);
    assert end == Rejected || end == RoundsUsedUp;
    CompanyAsksOnce(None, log);
    assert log != [];
    CompanyAskedOnce(log);
  }

  // ----- where the statuses come from -----

  /** An answer to some request of the log gave this status for the name. */
  ghost predicate Gave(reply: Gateway, log: seq<Round>, n: string, status: Status) {
    exists r, k :: 0 <= r < |log| && 0 <= k < |log[r].asked| && GaveIn(reply, log[r].first + k, log[r].asked[k], n, status)
  }

  ghost predicate GaveIn(reply: Gateway, k: nat, batch: seq<string>, n: string, status: Status) {
    reply(k, batch).Statuses? && n in reply(k, batch).images && reply(k, batch).images[n] == status
  }

  lemma {:induction false} MergeWasGiven(reply: Gateway, first: nat, asked: seq<seq<string>>, n: string)
    requires n in Merge(reply, first, asked)
    ensures exists k :: 0 <= k < |asked| && GaveIn(reply, first + k, asked[k], n, Merge(reply, first, asked)[n])
    decreases |asked|
  {
    var last := |asked| - 1;
    var answer := reply(first + last, asked[last]);
    if answer.Statuses? && n in answer.images {
      assert GaveIn(reply, first + last, asked[last], n, Merge(reply, first, asked)[n]);
    } else {
      MergeWasGiven(reply, first, asked[..last], n);
      var k :| 0 <= k < last && GaveIn(reply, first + k, asked[..last][k], n, Merge(reply, first, asked[..last])[n]);
      assert asked[k] == asked[..last][k];
    }
  }

  /** Every settled status is one that the gateway gave, and a settled one, whatever else it answers. */
  lemma {:induction false} SettledWasGiven(names: seq<string>, reply: Gateway, log: seq<Round>, n: string)
    requires RoundsOk(names, reply, log) && n in SettledAfter(reply, log)
    ensures Gave(reply, log, n, SettledAfter(reply, log)[n]) && SettledAfter(reply, log)[n].settled
    decreases |log|
  {
    var last := |log| - 1;
    if n in Learned(reply, log[last]) && Learned(reply, log[last])[n].settled {
      LearnedWasGiven(reply, log, n);
    } else {
      SettledWasGiven(names, reply, log[..last], n);
      GaveBefore(reply, log, n, SettledAfter(reply, log)[n]);
    }
  }

  lemma LearnedWasGiven(reply: Gateway, log: seq<Round>, n: string)
    requires log != [] && n in Learned(reply, log[|log| - 1])
    ensures Gave(reply, log, n, Learned(reply, log[|log| - 1])[n])
  {
    var last := |log| - 1;
    var r := log[last];
    MergeWasGiven(reply, r.first, r.asked, n);
    var k :| 0 <= k < |r.asked| && GaveIn(reply, r.first + k, r.asked[k], n, Merge(reply, r.first, r.asked)[n]);
    assert GaveIn(reply, log[last].first + k, log[last].asked[k], n, Learned(reply, r)[n]);
  }

  lemma GaveBefore(reply: Gateway, log: seq<Round>, n: string, status: Status)
    requires log != [] && Gave(reply, log[..|log| - 1], n, status)
    ensures Gave(reply, log, n, status)
  {
    var before := log[..|log| - 1];
    var r, k :| 0 <= r < |before| && 0 <= k < |before[r].asked| && GaveIn(reply, before[r].first + k, before[r].asked[k], n, status);
    assert log[r] == before[r];
    assert GaveIn(reply, log[r].first + k, log[r].asked[k], n, status);
  }

  // ----- a gateway that has all images -----

  /** It answers every request, with a settled status for exactly the names asked. */
  ghost predicate Prompt(reply: Gateway) {
    forall k, batch :: PromptlyAnswered(reply(k, batch), batch)
  }

  ghost predicate PromptlyAnswered(r: Reply, batch: seq<string>) {
    r.Statuses? && r.images.Keys == NameSet(batch) && forall n :: n in r.images ==> r.images[n].settled
  }

  lemma {:induction false} PromptMerge(reply: Gateway, first: nat, asked: seq<seq<string>>)
    requires Prompt(reply)
    ensures Merge(reply, first, asked).Keys == NameSet(Flatten(asked))
    ensures forall n :: n in Merge(reply, first, asked) ==> Merge(reply, first, asked)[n].settled
  {
    if asked != [] {
      var k := |asked| - 1;
      PromptMerge(reply, first, asked[..k]);
      assert PromptlyAnswered(reply(first + k, asked[k]), asked[k]);
      assert NameSet(Flatten(asked)) == NameSet(Flatten(asked[..k])) + NameSet(asked[k]);
    }
  }

  lemma {:induction false} AllPending(names: seq<string>)
    ensures Pending(names, map[]) == names
    decreases |names|
  {
    if names != [] {
      AllPending(names[..|names| - 1]);
    }
  }

  lemma PromptRound(names: seq<string>, reply: Gateway, r: Round)
    requires Prompt(reply) && Distinct(names) && RoundOk(names, reply, [], r)
    ensures !Fatal(reply, r)
    ensures var now := Settle(r.settled, Learned(reply, r)); now.Keys == NameSet(names) && |now| == |names|
  {
    AllPending(names);
    assert PromptlyAnswered(LastReply(reply, r.first, r.asked), r.asked[|r.asked| - 1]);
    BatchesPartition(reply, r.first, r.asked, names);
    PromptMerge(reply, r.first, r.asked);
    SettleAll(Merge(reply, r.first, r.asked), names);
  }

  lemma SettleAll(merged: map<string, Status>, names: seq<string>)
    requires Distinct(names) && merged.Keys == NameSet(names) && forall n :: n in merged ==> merged[n].settled
    ensures Settle(map[], merged) == merged && |merged| == |names|
  {
    NameCount(names);
    assert |merged| == |merged.Keys|;
  }

  lemma {:induction false} PromptEndsAtOnce(names: seq<string>, reply: Gateway, lateAt: Option<nat>, log: seq<Round>)
    requires Prompt(reply) && Distinct(names) && Waiting(names, reply, lateAt, log)
    ensures log == []
    decreases |log|
  {
    if log != [] {
      PromptEndsAtOnce(names, reply, lateAt, log[..|log| - 1]);
      assert log[..|log| - 1] == [];
      PromptRound(names, reply, log[|log| - 1]);
      assert false;
    }
  }

  /** Every wait for valid names then ends normally in its first round, with each name
      once and in the order given. */
  lemma {:induction false} PromptGatewayIsEnough(given: seq<string>, reply: Gateway, lateAt: Option<nat>, rounds: nat, end: WaitEnd, log: seq<Round>)
    requires Prompt(reply) && ValidNames(given) && rounds > 0
    requires WaitRun(given, reply, lateAt, rounds, end, log)
    ensures end.Done? && |log| == 1 && |end.statuses| == |Dedupe(given)|
    ensures forall k :: 0 <= k < |end.statuses| ==> end.statuses[k].0 == Dedupe(given)[k] && end.statuses[k].1.settled
  {
    var names := Dedupe(given);
    DedupeKeepsNames(given);
    assert given[0] in names;
    AllPending(names);
    if end == Rejected || end == RoundsUsedUp {
      PromptEndsAtOnce(names, reply, lateAt, log);
      assert false;
    } else {
      PromptlyEnded(names, reply, lateAt, end, log);
    }
  }

  lemma {:induction false} PromptlyEnded(names: seq<string>, reply: Gateway, lateAt: Option<nat>, end: WaitEnd, log: seq<Round>)
    requires Prompt(reply) && Distinct(names) && Ended(names, reply, lateAt, log, end)
    ensures end.Done? && |log| == 1 && |end.statuses| == |names|
    ensures forall k :: 0 <= k < |end.statuses| ==> end.statuses[k].0 == names[k] && end.statuses[k].1.settled
  {
    PromptEndsAtOnce(names, reply, lateAt, log[..|log| - 1]);
    assert |log[..|log| - 1]| == 0;
    var r := log[0];
    PromptVerdict(names, reply, r, Late(lateAt, 0), end);
    var now := Settle(r.settled, Learned(reply, r));
    forall k | 0 <= k < |names| ensures now[names[k]].settled {
      PromptlySettled(names, reply, r, names[k]);
    }
  }

  lemma PromptlySettled(names: seq<string>, reply: Gateway, r: Round, n: string)
    requires Prompt(reply) && Distinct(names) && RoundOk(names, reply, [], r) && n in names
    ensures var now := Settle(r.settled, Learned(reply, r)); n in now && now[n].settled
  {
    PromptRound(names, reply, r);
    assert n in NameSet(names);
    assert n in Settle(r.settled, Learned(reply, r)).Keys;
  }

  lemma PromptVerdict(names: seq<string>, reply: Gateway, r: Round, late: bool, end: WaitEnd)
    requires Prompt(reply) && Distinct(names) && RoundOk(names, reply, [], r)
    requires EndsWith(names, Settle(r.settled, Learned(reply, r)), Fatal(reply, r), late, end)
    ensures end.Done? && end.statuses == Listing(names, Settle(r.settled, Learned(reply, r)))
  {
    PromptRound(names, reply, r);
    var now := Settle(r.settled, Learned(reply, r));
    forall n | n in names ensures n in now {
      assert n in NameSet(names);
      assert n in now.Keys;
    }
  }

  /** No names, or an empty one among them, are refused before anything is asked. */
  lemma BadNamesAreRejected(given: seq<string>, reply: Gateway, lateAt: Option<nat>, rounds: nat, end: WaitEnd, log: seq<Round>)
    requires given == [] || "" in given
    ensures WaitRun(given, reply, lateAt, rounds, end, log) <==> end == Rejected && log == []
  {
  }
}
