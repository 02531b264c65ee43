/** Waiting for a job and following its output through long-polled reads
    (src/ucloud_sandboxes_sdk/client.py). */
module JobFollow {
  import opened Prelude

  type Bytes = seq<bv8>

  datatype Stream = Stdout | Stderr

  datatype Record = Record(
    terminal: bool, stdoutBytes: nat, stderrBytes: nat,
    stdoutTruncated: bool, stderrTruncated: bool,
    cursor: string, cursorFromServer: bool, retryAfter: Option<real>)

  // `job` is None from an older gateway. The next offset is offset + |data|:
  // a payload that says otherwise never becomes a chunk.
  datatype Chunk = Chunk(
    stream: Stream, offset: nat, data: Bytes, eof: bool, job: Option<Record>, retryAfter: Option<real>)

  const REQUESTED := 20.0   // DEFAULT_JOB_READ_WAIT_SECONDS

  datatype Delay = Stop | Truncated | Pause(seconds: real)

  function PollPause(poll: real): real { Max(0.05, poll) }

  function StreamBytes(r: Record, stream: Stream): nat {
    if stream == Stdout then r.stdoutBytes else r.stderrBytes
  }

  /** `job_read_delay` for the answer to a status read. */
  function StatusDelay(r: Record, requested: real, elapsed: real, poll: real, after: string): Delay {
    if r.terminal then Stop
    else if r.retryAfter.Some? then Pause(r.retryAfter.value)
    else if elapsed < requested / 2.0 && (r.cursor == after || !r.cursorFromServer) then Pause(PollPause(poll))
    else Pause(0.0)
  }

  /** `job_read_delay` for the answer to a log read. */
  function LogDelay(c: Chunk, requested: real, elapsed: real, poll: real, record: Option<Record>): Delay {
    var current := if c.job.Some? then c.job else record;
    if current.Some? && (current.value.stdoutTruncated || current.value.stderrTruncated) then Truncated
    else if current.Some? && current.value.terminal
            && c.offset + |c.data| >= StreamBytes(current.value, c.stream) then Stop
    else if c.retryAfter.Some? then Pause(c.retryAfter.value)
    else
      var progressed := c.data != [] &&
        (c.job.Some? || !c.eof || (current.Some? && current.value.terminal));
      if elapsed < requested / 2.0 && !progressed then Pause(PollPause(poll)) else Pause(0.0)
  }

  predicate NeedsStatus(c: Chunk) { c.job.None? && (c.data == [] || c.eof) }

  // One log read: its answer, how long it took, the status an extra read would
  // give, and by how much the following sleep overshoots.
  datatype Read = Read(chunk: Chunk, elapsed: real, status: Record, overshoot: real)

  function RecordOf(r: Read): Option<Record> {
    if NeedsStatus(r.chunk) then Some(r.status) else r.chunk.job
  }

  // ----- the server: one append-only log -----

  /** `log` is everything the stream will ever hold. */
  ghost predicate Serves(log: Bytes, stream: Stream, asked: nat, r: Read) {
    && r.chunk.stream == stream && r.chunk.offset == asked
    && (r.chunk.data == [] || (asked + |r.chunk.data| <= |log| && r.chunk.data == log[asked..asked + |r.chunk.data|]))
    && (r.chunk.job.Some? && r.chunk.job.value.terminal ==> StreamBytes(r.chunk.job.value, stream) == |log|)
    && (r.status.terminal ==> StreamBytes(r.status, stream) == |log|)
    && r.elapsed >= 0.0 && r.overshoot >= 0.0
    && (r.chunk.retryAfter.Some? ==> r.chunk.retryAfter.value >= 0.0)
  }

  /** The reads a follower makes: each asks where the one before it ended. */
  ghost predicate ServesAll(log: Bytes, stream: Stream, asked: nat, answers: seq<Read>)
    decreases |answers|
  {
    answers == []
    || (Serves(log, stream, asked, answers[0])
        && ServesAll(log, stream, asked + |answers[0].chunk.data|, answers[1..]))
  }

  ghost function Flatten(parts: seq<Bytes>): Bytes {
    if parts == [] then [] else parts[0] + Flatten(parts[1..])
  }

  lemma {:induction false} FlattenAppend(parts: seq<Bytes>, last: Bytes)
    ensures Flatten(parts + [last]) == Flatten(parts) + last
  {
    if parts == [] {
      assert Flatten([last]) == last + Flatten([]);
    } else {
      FlattenAppend(parts[1..], last);
      assert (parts + [last])[1..] == parts[1..] + [last];
    }
  }

  /** The stretch of the log between two offsets, empty where there is no log. */
  ghost function Stretch(log: Bytes, from: nat, to: nat): Bytes
    requires from <= to
  {
    if to <= |log| then log[from..to] else if from <= |log| then log[from..] else []
  }

  /** Everything from an offset on. */
  ghost function Rest(log: Bytes, from: nat): Bytes {
    if from <= |log| then log[from..] else []
  }

  lemma StretchToTheEnd(log: Bytes, from: nat, to: nat)
    requires from <= to && |log| <= to
    ensures Stretch(log, from, to) == Rest(log, from)
  {
  }

  lemma StretchMore(log: Bytes, from: nat, to: nat, data: Bytes)
    requires from <= to && (data == [] || (to + |data| <= |log| && data == log[to..to + |data|]))
    ensures Stretch(log, from, to + |data|) == Stretch(log, from, to) + data
  {
  }

  /** Reads that were not answered with Retry-After. */
  ghost function Unparked(answers: seq<Read>): nat {
    if answers == [] then 0
    else Unparked(answers[..|answers| - 1]) + (if answers[|answers| - 1].chunk.retryAfter.None? then 1 else 0)
  }

  lemma UnparkedNext(answers: seq<Read>, k: nat)
    requires k < |answers|
    ensures Unparked(answers[..k + 1])
         == Unparked(answers[..k]) + (if answers[k].chunk.retryAfter.None? then 1 else 0)
  {
    assert answers[..k + 1][..k] == answers[..k];
  }

  /** The least a read that made no progress costs in time. */
  function Quantum(poll: real): real { Min(REQUESTED / 2.0, PollPause(poll)) }

  ghost function Times(n: nat, q: real): real {
    if n == 0 then 0.0 else Times(n - 1, q) + q
  }

  lemma {:induction false} TimesIsProduct(n: nat, q: real)
    ensures Times(n, q) == n as real * q
  {
    if n > 0 {
      TimesIsProduct(n - 1, q);
      var m := (n - 1) as real;
      assert m * q + q == (m + 1.0) * q;
    }
  }

  // ----- follow -----

  datatype FollowEnd = Finished | OutputTruncated | ReadsUsedUp

  /** What was yielded is a stretch of the log from `start` on, in order and
      without a repeat. */
  ghost predicate Delivered(log: Bytes, start: nat, parts: seq<Bytes>) {
    Flatten(parts) == Stretch(log, start, start + |Flatten(parts)|)
  }

  function WithPart(parts: seq<Bytes>, data: Bytes): seq<Bytes> {
    if data == [] then parts else parts + [data]
  }

  lemma {:induction false} FlattenWithPart(parts: seq<Bytes>, data: Bytes)
    ensures Flatten(WithPart(parts, data)) == Flatten(parts) + data
  {
    FlattenAppend(parts, data);
  }

  lemma {:induction false} DeliverMore(log: Bytes, start: nat, parts: seq<Bytes>, data: Bytes)
    requires Delivered(log, start, parts)
    requires var to := start + |Flatten(parts)|; data == [] || (to + |data| <= |log| && data == log[to..to + |data|])
    ensures Delivered(log, start, WithPart(parts, data))
  {
    FlattenWithPart(parts, data);
    LongerStretch(log, start, Flatten(parts), data);
  }

  lemma LongerStretch(log: Bytes, start: nat, had: Bytes, data: Bytes)
    requires had == Stretch(log, start, start + |had|)
    requires var to := start + |had|; data == [] || (to + |data| <= |log| && data == log[to..to + |data|])
    ensures had + data == Stretch(log, start, start + |had + data|)
  {
    StretchMore(log, start, start + |had|, data);
    assert start + |had + data| == start + |had| + |data|;
  }

  function DelayOf(r: Read, poll: real): Delay {
    LogDelay(r.chunk, REQUESTED, r.elapsed, poll, RecordOf(r))
  }

  // The follower's variables after some reads, and its accounts: how many reads
  // brought nothing, and the time that reads and pauses took.
  datatype Track = Track(offset: nat, parts: seq<Bytes>, slow: nat, seconds: real)

  ghost function Advance(t: Track, r: Read, poll: real): Track
    requires DelayOf(r, poll).Pause?
  {
    Track(r.chunk.offset + |r.chunk.data|, WithPart(t.parts, r.chunk.data),
          if r.chunk.retryAfter.None? && r.chunk.data == [] then t.slow + 1 else t.slow,
          t.seconds + r.elapsed + DelayOf(r, poll).seconds + r.overshoot)
  }

  ghost predicate GoesOn(answers: seq<Read>, poll: real, n: nat) {
    n <= |answers| && forall k :: 0 <= k < n ==> DelayOf(answers[k], poll).Pause?
  }

  ghost function TrackAfter(start: nat, poll: real, answers: seq<Read>, n: nat): Track
    requires GoesOn(answers, poll, n)
  {
    if n == 0 then Track(start, [], 0, 0.0)
    else Advance(TrackAfter(start, poll, answers, n - 1), answers[n - 1], poll)
  }

  /** How many of a follower's reads did not end it. */
  function Before(end: FollowEnd, used: nat): int { if end == ReadsUsedUp then used else used - 1 }

  /** A run of the follower: every read but the last lets it go on, what it yields
      are the chunks in order, and the last read is the one that ends it. */
  ghost predicate FollowRun(start: nat, poll: real, answers: seq<Read>, end: FollowEnd, parts: seq<Bytes>, used: nat) {
    var n := Before(end, used);
    && n >= 0 && GoesOn(answers, poll, n)
    && var yielded := TrackAfter(start, poll, answers, n).parts;
       match end
       case ReadsUsedUp => n == |answers| && parts == yielded
       // truncation raises before the current chunk is yielded
       case OutputTruncated => n < |answers| && DelayOf(answers[n], poll) == Truncated && parts == yielded
       case Finished =>
         n < |answers| && DelayOf(answers[n], poll) == Stop && parts == WithPart(yielded, answers[n].chunk.data)
  }

  /** Yields the stream from `start` on, read by read. */
  method Follow(start: nat, poll: real, answers: seq<Read>)
      returns (end: FollowEnd, parts: seq<Bytes>, used: nat)
    ensures FollowRun(start, poll, answers, end, parts, used)
  {
    var offset: nat := start;
    parts, used := [], 0;
    while used < |answers|
      invariant GoesOn(answers, poll, used)
      invariant offset == TrackAfter(start, poll, answers, used).offset
      invariant parts == TrackAfter(start, poll, answers, used).parts
    {
      var read := answers[used];
      var delay := LogDelay(read.chunk, REQUESTED, read.elapsed, poll, RecordOf(read));
      if delay == Truncated {
        return OutputTruncated, parts, used + 1;
      }
      offset := read.chunk.offset + |read.chunk.data|;
      if read.chunk.data != [] {
        parts := parts + [read.chunk.data];
      }
      used := used + 1;
      if delay == Stop {
        return Finished, parts, used;
      }
    }
    end := ReadsUsedUp;
  }

  /** The answers decide how a follower ends, after how many reads, and what it yields. */
  lemma FollowHasOneRun(start: nat, poll: real, answers: seq<Read>,
                        e1: FollowEnd, p1: seq<Bytes>, u1: nat, e2: FollowEnd, p2: seq<Bytes>, u2: nat)
    requires FollowRun(start, poll, answers, e1, p1, u1) && FollowRun(start, poll, answers, e2, p2, u2)
    ensures e1 == e2 && p1 == p2 && u1 == u2
  {
    LastReadDecides(poll, answers, Before(e1, u1), Before(e2, u2));
    LastReadDecides(poll, answers, Before(e2, u2), Before(e1, u1));
  }

  lemma LastReadDecides(poll: real, answers: seq<Read>, n: nat, m: nat)
    requires n <= |answers| && (n < |answers| ==> !DelayOf(answers[n], poll).Pause?) && GoesOn(answers, poll, m)
    ensures m <= n
  {
  }

  lemma {:induction false} PartsAreNotEmpty(start: nat, poll: real, answers: seq<Read>, n: nat)
    requires GoesOn(answers, poll, n)
    ensures [] !in TrackAfter(start, poll, answers, n).parts
  {
    if n > 0 {
      PartsAreNotEmpty(start, poll, answers, n - 1);
    }
  }

  // ----- what ends it, and how long it pauses -----

  /** The record a read shows: its own, or, when an older gateway's answer reaches
      the end of the log, the one of the status read after it. */
  ghost predicate Shows(r: Read, record: Record) {
    || r.chunk.job == Some(record)
    || (r.chunk.job == None && (r.chunk.data == [] || r.chunk.eof) && record == r.status)
  }

  ghost predicate ShowsTruncation(r: Read) {
    exists record :: Shows(r, record) && (record.stdoutTruncated || record.stderrTruncated)
  }

  /** The job has ended and this read came to the end of its stream. */
  ghost predicate ShowsTheEnd(r: Read) {
    exists record :: Shows(r, record) && record.terminal &&
      r.chunk.offset + |r.chunk.data| >= if r.chunk.stream == Stdout then record.stdoutBytes else record.stderrBytes
  }

  /** A read that brings news: data, and from an older gateway not merely the data
      up to the present end of a running job's log. */
  ghost predicate BringsNews(r: Read) {
    && r.chunk.data != []
    && (r.chunk.job.Some? || !r.chunk.eof || exists record :: Shows(r, record) && record.terminal)
  }

  /** What a read makes the follower do. */
  lemma DelayMeaning(r: Read, poll: real)
    ensures DelayOf(r, poll) == Truncated <==> ShowsTruncation(r)
    ensures DelayOf(r, poll) == Stop <==> ShowsTheEnd(r) && !ShowsTruncation(r)
    ensures DelayOf(r, poll).Pause? ==>
      match r.chunk.retryAfter
      case Some(seconds) => DelayOf(r, poll).seconds == seconds
      case None =>
        if r.elapsed < 10.0 && !BringsNews(r) then DelayOf(r, poll).seconds == (if poll > 0.05 then poll else 0.05)
        else DelayOf(r, poll).seconds == 0.0
  {
    assert RecordOf(r).Some? ==> Shows(r, RecordOf(r).value);
    assert forall record :: Shows(r, record) ==> RecordOf(r) == Some(record);
  }

  /** The first read that shows truncation, or the end of the job and its stream, is
      the last one, and the follow ends accordingly; it does not end otherwise. */
  lemma EndsForCause(start: nat, poll: real, answers: seq<Read>, end: FollowEnd, parts: seq<Bytes>, used: nat)
    requires FollowRun(start, poll, answers, end, parts, used)
    ensures used <= |answers|
    ensures forall k :: 0 <= k < used && ShowsTruncation(answers[k]) ==> k == used - 1 && end == OutputTruncated
    ensures forall k :: 0 <= k < used && ShowsTheEnd(answers[k]) ==> k == used - 1 && end != ReadsUsedUp
    ensures end == OutputTruncated ==> used > 0 && ShowsTruncation(answers[used - 1])
    ensures end == Finished ==> used > 0 && ShowsTheEnd(answers[used - 1]) && !ShowsTruncation(answers[used - 1])
    ensures end == ReadsUsedUp ==> used == |answers|
  {
    forall k | 0 <= k < used
      ensures ShowsTruncation(answers[k]) ==> k == used - 1 && end == OutputTruncated
      ensures ShowsTheEnd(answers[k]) ==> k == used - 1 && end != ReadsUsedUp
    {
      DelayMeaning(answers[k], poll);
    }
    if end != ReadsUsedUp {
      DelayMeaning(answers[used - 1], poll);
    }
  }

  // ----- what it yields from one log -----

  /** What holds between two reads of one log. */
  ghost predicate Following(log: Bytes, stream: Stream, start: nat, answers: seq<Read>, n: nat, t: Track) {
    && n <= |answers| && t.offset == start + |Flatten(t.parts)|
    && ServesAll(log, stream, t.offset, answers[n..]) && Delivered(log, start, t.parts)
  }

  lemma {:induction false} ReadInPlace(log: Bytes, stream: Stream, start: nat, answers: seq<Read>, n: nat, t: Track)
    requires n < |answers| && Following(log, stream, start, answers, n, t)
    ensures var r := answers[n];
      && Serves(log, stream, t.offset, r)
      && ServesAll(log, stream, t.offset + |r.chunk.data|, answers[n + 1..])
      && Delivered(log, start, WithPart(t.parts, r.chunk.data))
      && Flatten(WithPart(t.parts, r.chunk.data)) == Flatten(t.parts) + r.chunk.data
  {
    assert answers[n..][1..] == answers[n + 1..];
    DeliverMore(log, start, t.parts, answers[n].chunk.data);
    FlattenWithPart(t.parts, answers[n].chunk.data);
  }

  lemma FollowOn(log: Bytes, stream: Stream, start: nat, poll: real, answers: seq<Read>, n: nat, t: Track)
    requires n < |answers| && Following(log, stream, start, answers, n, t) && DelayOf(answers[n], poll).Pause?
    ensures Following(log, stream, start, answers, n + 1, Advance(t, answers[n], poll))
  {
    ReadInPlace(log, stream, start, answers, n, t);
  }

  lemma {:induction false} TrackIsFollowing(log: Bytes, stream: Stream, start: nat, poll: real, answers: seq<Read>, n: nat)
    requires ServesAll(log, stream, start, answers) && GoesOn(answers, poll, n)
    ensures Following(log, stream, start, answers, n, TrackAfter(start, poll, answers, n))
  {
    if n == 0 {
      assert answers[0..] == answers;
    } else {
      TrackIsFollowing(log, stream, start, poll, answers, n - 1);
      FollowOn(log, stream, start, poll, answers, n - 1, TrackAfter(start, poll, answers, n - 1));
    }
  }

  /** Against a server with one log: what is yielded is the log from `start` on, at
      every moment; a normal end has yielded all of it; truncation is noticed where
      the yielded part ends. */
  lemma {:induction false} FollowYieldsTheLog(log: Bytes, stream: Stream, start: nat, poll: real, answers: seq<Read>,
                           end: FollowEnd, parts: seq<Bytes>, used: nat)
    requires ServesAll(log, stream, start, answers) && FollowRun(start, poll, answers, end, parts, used)
    ensures Delivered(log, start, parts) && [] !in parts
    ensures end == Finished ==> Flatten(parts) == Rest(log, start)
    ensures end == OutputTruncated ==> answers[used - 1].chunk.offset == start + |Flatten(parts)|
  {
    var n := Before(end, used);
    var t := TrackAfter(start, poll, answers, n);
    TrackIsFollowing(log, stream, start, poll, answers, n);
    PartsAreNotEmpty(start, poll, answers, n);
    if end == Finished {
      FinishedWithAll(log, stream, start, poll, answers, n, t);
    } else if end == OutputTruncated {
      ReadInPlace(log, stream, start, answers, n, t);
    }
  }

  lemma FinishedWithAll(log: Bytes, stream: Stream, start: nat, poll: real, answers: seq<Read>, n: nat, t: Track)
    requires n < |answers| && Following(log, stream, start, answers, n, t) && DelayOf(answers[n], poll) == Stop
    ensures var parts := WithPart(t.parts, answers[n].chunk.data);
      Delivered(log, start, parts) && Flatten(parts) == Rest(log, start)
  {
    ReadInPlace(log, stream, start, answers, n, t);
    StopIsTheEnd(log, stream, start, answers[n], poll);
  }

  // ----- it never spins -----

  ghost predicate TimesOk(answers: seq<Read>) {
    forall k :: 0 <= k < |answers| ==>
      && answers[k].elapsed >= 0.0 && answers[k].overshoot >= 0.0
      && (answers[k].chunk.retryAfter.Some? ==> answers[k].chunk.retryAfter.value >= 0.0)
  }

  /** Whatever the server answers: a read that was not parked brought bytes, or
      cost a quantum of time. */
  lemma {:induction false} ReadsArePaidFor(start: nat, poll: real, answers: seq<Read>, n: nat)
    requires TimesOk(answers) && GoesOn(answers, poll, n)
    ensures var t := TrackAfter(start, poll, answers, n);
      && Unparked(answers[..n]) <= |Flatten(t.parts)| + t.slow
      && Times(t.slow, Quantum(poll)) <= t.seconds
  {
    if n == 0 {
      assert answers[..0] == [];
    } else {
      var t := TrackAfter(start, poll, answers, n - 1);
      ReadsArePaidFor(start, poll, answers, n - 1);
      UnparkedNext(answers, n - 1);
      FlattenWithPart(t.parts, answers[n - 1].chunk.data);
      ReadCost(answers[n - 1], poll);
    }
  }

  /** It never spins: the reads that did not end it and were not parked are
      bounded by the bytes they brought plus the time that passed, in quanta. */
  lemma {:induction false} FollowNeverSpins(start: nat, poll: real, answers: seq<Read>, end: FollowEnd, parts: seq<Bytes>, used: nat)
    requires TimesOk(answers) && FollowRun(start, poll, answers, end, parts, used)
    ensures var t := TrackAfter(start, poll, answers, Before(end, used));
      Unparked(answers[..Before(end, used)]) as real <= |Flatten(t.parts)| as real + t.seconds / Quantum(poll)
  {
    var t := TrackAfter(start, poll, answers, Before(end, used));
    ReadsArePaidFor(start, poll, answers, Before(end, used));
    QuantaInTime(t.slow, poll, t.seconds);
  }

  lemma {:induction false} QuantaInTime(n: nat, poll: real, seconds: real)
    requires Times(n, Quantum(poll)) <= seconds
    ensures n as real <= seconds / Quantum(poll)
  {
    var q := Quantum(poll);
    TimesIsProduct(n, q);
    assert (seconds / q) * q == seconds;
    assert (n as real - seconds / q) * q <= 0.0;
  }

  /** The read that ends a follow has reached the end of the stream. */
  lemma StopIsTheEnd(log: Bytes, stream: Stream, start: nat, r: Read, poll: real)
    requires start <= r.chunk.offset && Serves(log, stream, r.chunk.offset, r)
    requires LogDelay(r.chunk, REQUESTED, r.elapsed, poll, RecordOf(r)) == Stop
    ensures Stretch(log, start, r.chunk.offset + |r.chunk.data|) == Rest(log, start)
  {
    StretchToTheEnd(log, start, r.chunk.offset + |r.chunk.data|);
  }

  /** A read that is neither final nor parked delivered a byte, was held for
      half the requested wait, or is followed by the polling pause. */
  lemma ReadCost(r: Read, poll: real)
    requires r.elapsed >= 0.0 && (r.chunk.retryAfter.Some? ==> r.chunk.retryAfter.value >= 0.0)
    requires LogDelay(r.chunk, REQUESTED, r.elapsed, poll, RecordOf(r)).Pause?
    ensures var pause := LogDelay(r.chunk, REQUESTED, r.elapsed, poll, RecordOf(r)).seconds;
      && pause >= 0.0
      && (r.chunk.retryAfter.None? && r.chunk.data == [] ==> r.elapsed + pause >= Quantum(poll))
  {
  }

  /** What the gateway has to promise: an answer at another offset passes every
      check the client makes, and the follower then yields other bytes. */
  lemma EchoIsTrusted()
    ensures var log: Bytes := [1, 2];
      var job := Record(true, 2, 0, false, false, "", true, None);
      var read := Read(Chunk(Stdout, 1, log[1..2], true, Some(job), None), 0.0, job, 0.0);
      && !Serves(log, Stdout, 0, read) && read.chunk.offset + |read.chunk.data| == |log|
      && FollowRun(0, 1.0, [read], Finished, [log[1..2]], 1) && Flatten([log[1..2]]) != Rest(log, 0)
  {
    var part: Bytes := [2];
    assert Flatten([part]) == part + Flatten([]);
    assert [] + [part] == [part];
  }

  // ----- wait -----

  // One status read, and by how much the following sleep overshoots.
  datatype Status = Status(record: Record, elapsed: real, overshoot: real)

  datatype WaitEnd = JobEnded | TimedOut | StatusesUsedUp

  ghost predicate StatusOk(s: Status) {
    s.elapsed >= 0.0 && s.overshoot >= 0.0 && (s.record.retryAfter.Some? ==> s.record.retryAfter.value >= 0.0)
  }

  /** The record a status read showed before the k-th one. */
  function After(first: string, answers: seq<Status>, k: nat): string
    requires k <= |answers|
  {
    if k == 0 then first else answers[k - 1].record.cursor
  }

  function Requested(deadline: Option<real>, now: real): real {
    if deadline.None? then REQUESTED else Min(REQUESTED, Max(0.0, deadline.value - now))
  }

  function Cut(pause: real, deadline: Option<real>, now: real): real {
    if deadline.None? then pause else Min(pause, Max(0.0, deadline.value - now))
  }

  // A status read that was not the last one: when it began and the pause after it.
  datatype Waited = Waited(began: real, pause: real)

  /** The pause that the k-th answer asks for. */
  function FullPause(first: string, poll: real, deadline: Option<real>, answers: seq<Status>, k: nat, began: real): Delay
    requires k < |answers|
  {
    StatusDelay(answers[k].record, Requested(deadline, began), answers[k].elapsed, poll, After(first, answers, k))
  }

  /** One read that was not the last: the pause it led to, and when the next read began. */
  ghost predicate Turn(first: string, poll: real, deadline: Option<real>, answers: seq<Status>, log: seq<Waited>, now: real, k: nat)
    requires k < |log| <= |answers|
  {
    var full := FullPause(first, poll, deadline, answers, k, log[k].began);
    var answered := log[k].began + answers[k].elapsed;
    && !(deadline.Some? && answered >= deadline.value)
    && full.Pause? && log[k].pause == Cut(full.seconds, deadline, answered)
    && NextBegan(log, k + 1, now) == answered + log[k].pause + answers[k].overshoot
  }

  function NextBegan(log: seq<Waited>, k: nat, now: real): real {
    if k < |log| then log[k].began else now
  }

  /** The reads follow each other, each after the pause of the one before it. */
  ghost predicate Sequenced(first: string, poll: real, deadline: Option<real>, answers: seq<Status>, log: seq<Waited>, now: real) {
    && |log| <= |answers|
    && forall k :: 0 <= k < |log| ==>
      Turn(first, poll, deadline, answers, log, now, k)
  }

  /** A read without news, not parked, and with neither its wait nor its pause
      shortened by the deadline. */
  ghost predicate Idle(first: string, poll: real, deadline: Option<real>, answers: seq<Status>, k: nat, w: Waited)
    requires k < |answers|
  {
    var full := FullPause(first, poll, deadline, answers, k, w.began);
    && answers[k].record.retryAfter.None?
    && (answers[k].record.cursor == After(first, answers, k) || !answers[k].record.cursorFromServer)
    && Requested(deadline, w.began) == REQUESTED
    && full == Pause(w.pause)
  }

  lemma IdleReadCost(first: string, poll: real, deadline: Option<real>, answers: seq<Status>, log: seq<Waited>, now: real, k: nat)
    requires k < |log| <= |answers| && StatusOk(answers[k]) && Turn(first, poll, deadline, answers, log, now, k)
    ensures var took := NextBegan(log, k + 1, now) - log[k].began;
      took >= 0.0 && (Idle(first, poll, deadline, answers, k, log[k]) ==> took >= Quantum(poll))
  {
  }

  ghost function IdleCount(first: string, poll: real, deadline: Option<real>, answers: seq<Status>, log: seq<Waited>, n: nat): nat
    requires n <= |log| <= |answers|
  {
    if n == 0 then 0
    else IdleCount(first, poll, deadline, answers, log, n - 1)
         + (if Idle(first, poll, deadline, answers, n - 1, log[n - 1]) then 1 else 0)
  }

  lemma SequencedGrows(first: string, poll: real, deadline: Option<real>, answers: seq<Status>, log: seq<Waited>,
                       began: real, pause: real, next: real)
    requires Sequenced(first, poll, deadline, answers, log, began) && |log| < |answers|
    requires var k := |log|;
      var full := FullPause(first, poll, deadline, answers, k, began);
      && !(deadline.Some? && began + answers[k].elapsed >= deadline.value)
      && full.Pause? && pause == Cut(full.seconds, deadline, began + answers[k].elapsed)
      && next == began + answers[k].elapsed + pause + answers[k].overshoot
    ensures Sequenced(first, poll, deadline, answers, log + [Waited(began, pause)], next)
  {
    var log' := log + [Waited(began, pause)];
    forall k | 0 <= k < |log'| ensures Turn(first, poll, deadline, answers, log', next, k) {
      if k < |log| {
        assert Turn(first, poll, deadline, answers, log, began, k);
      }
    }
  }

  /** Waits until the job ends or the deadline passes. */
  method Wait(first: string, poll: real, deadline: Option<real>, start: real, answers: seq<Status>)
      returns (end: WaitEnd, used: nat, now: real, ghost log: seq<Waited>)
    requires forall k :: 0 <= k < |answers| ==> StatusOk(answers[k])
    ensures used <= |answers| && (if end == StatusesUsedUp then used == |answers| else used > 0)
    ensures forall k :: 0 <= k < used ==> (answers[k].record.terminal <==> end == JobEnded && k == used - 1)
    ensures end == TimedOut ==> deadline.Some? && now >= deadline.value
    ensures |log| == if end == StatusesUsedUp then used else used - 1
    ensures var ended := if end == StatusesUsedUp then now else now - answers[used - 1].elapsed;
      Sequenced(first, poll, deadline, answers, log, ended) && NextBegan(log, 0, ended) == start
  {
    now, used, log := start, 0, [];
    var after := first;
    while used < |answers|
      invariant used == |log| <= |answers| && after == After(first, answers, used)
      invariant forall k :: 0 <= k < used ==> !answers[k].record.terminal
      invariant Sequenced(first, poll, deadline, answers, log, now)
      invariant NextBegan(log, 0, now) == start
    {
      var s, began := answers[used], now;
      var requested := Requested(deadline, now);
      now := now + s.elapsed;
      if s.record.terminal {
        return JobEnded, used + 1, now, log;
      }
      if deadline.Some? && now >= deadline.value {
        return TimedOut, used + 1, now, log;
      }
      var delay := StatusDelay(s.record, requested, s.elapsed, poll, after);
      var pause := Cut(delay.seconds, deadline, now);
      SequencedGrows(first, poll, deadline, answers, log, began, pause, now + pause + s.overshoot);
      log := log + [Waited(began, pause)];
      after := s.record.cursor;
      now := now + pause + s.overshoot;
      used := used + 1;
    }
    end := StatusesUsedUp;
  }

  /** Waiting never spins either: each idle read costs a quantum of time. */
  lemma {:induction false} IdleReadsCostTime(
      first: string, poll: real, deadline: Option<real>, answers: seq<Status>, log: seq<Waited>, now: real, n: nat)
    requires forall k :: 0 <= k < |answers| ==> StatusOk(answers[k])
    requires Sequenced(first, poll, deadline, answers, log, now) && n <= |log|
    ensures Times(IdleCount(first, poll, deadline, answers, log, n), Quantum(poll))
         <= NextBegan(log, n, now) - NextBegan(log, 0, now)
  {
    if n > 0 {
      IdleReadsCostTime(first, poll, deadline, answers, log, now, n - 1);
      IdleReadCost(first, poll, deadline, answers, log, now, n - 1);
    }
  }

  /** So the idle reads of a wait are bounded by the time it took, in quanta. */
  lemma {:induction false} WaitNeverSpins(first: string, poll: real, deadline: Option<real>, answers: seq<Status>, log: seq<Waited>, now: real)
    requires forall k :: 0 <= k < |answers| ==> StatusOk(answers[k])
    requires Sequenced(first, poll, deadline, answers, log, now)
    ensures IdleCount(first, poll, deadline, answers, log, |log|) as real
         <= (now - NextBegan(log, 0, now)) / Quantum(poll)
  {
    IdleReadsCostTime(first, poll, deadline, answers, log, now, |log|);
    QuantaInTime(IdleCount(first, poll, deadline, answers, log, |log|), poll, now - NextBegan(log, 0, now));
  }

  /** The pause after a status read of a running job: what Retry-After says; the
      polling pause after an early answer without news; otherwise none. */
  lemma StatusPauses(r: Record, requested: real, elapsed: real, poll: real, after: string)
    ensures StatusDelay(r, requested, elapsed, poll, after) == Stop <==> r.terminal
    ensures !r.terminal ==>
      var news := r.cursor != after && r.cursorFromServer;
      StatusDelay(r, requested, elapsed, poll, after) == Pause(
        if r.retryAfter.Some? then r.retryAfter.value
        else if news || elapsed + elapsed >= requested then 0.0
        else if poll > 0.05 then poll else 0.05)
  {
  }

  /** Every pause of a wait is the one its answer asks for, or ends exactly at the deadline. */
  lemma WaitsFitTheDeadline(first: string, poll: real, deadline: Option<real>, answers: seq<Status>,
                            log: seq<Waited>, now: real, k: nat)
    requires Sequenced(first, poll, deadline, answers, log, now) && k < |log|
    ensures var full := FullPause(first, poll, deadline, answers, k, log[k].began);
      var until := log[k].began + answers[k].elapsed + log[k].pause;
      && full.Pause?
      && (deadline.None? ==> log[k].pause == full.seconds)
      && (deadline.Some? ==>
            until <= deadline.value && (log[k].pause == full.seconds || (until == deadline.value && log[k].pause < full.seconds)))
  {
    assert Turn(first, poll, deadline, answers, log, now, k);
  }

  /** A status read asks to be held for twenty seconds, or for what the deadline leaves. */
  lemma RequestsFitTheDeadline(deadline: Option<real>, now: real)
    ensures deadline.None? ==> Requested(deadline, now) == 20.0
    ensures deadline.Some? ==>
      var left := if deadline.value > now then deadline.value - now else 0.0;
      Requested(deadline, now) == if left < 20.0 then left else 20.0
  {
  }
}
