/** Idle HTTP connections per origin, and the one request that may be sent twice
    (src/ucloud_sandboxes_sdk/_http.py). */
module ConnectionPool {
  import opened Prelude
  import opened Runs

  datatype Key = Key(scheme: string, host: string, port: nat)

  // Connections are named by their creation order.
  datatype Entry = Entry(conn: nat, returnedAt: real)

  // What came of writing one request to a connection. `ran` says whether the
  // server executed it, which the client cannot see.
  datatype Wire = Wire(ran: bool, answer: Answer)
  datatype Answer =
    | Response(status: nat)
    | Refused(unreachable: bool)   // urllib's URLError; an unreachable errno or not
    | PeerClosed                   // disconnected or reset before a response
    | Broken                       // any other failure

  predicate Resendable(a: Answer) { a.PeerClosed? || a.Refused? }

  class Pool {
    const idleSeconds: real
    const maxIdle: nat
    var idle: map<Key, seq<Entry>>
    var closed: set<nat>     // connections whose close() was called
    var nextConn: nat

    ghost predicate Valid()
      reads this
    {
      forall key :: key in idle ==>
        && |idle[key]| <= maxIdle
        && forall i :: 0 <= i < |idle[key]| ==> idle[key][i].conn < nextConn
    }

    ghost function Idle(key: Key): seq<Entry>
      reads this
    {
      if key in idle then idle[key] else []
    }

    ghost predicate Usable(e: Entry, now: real, dropped: nat -> bool) {
      now - e.returnedAt < idleSeconds && !dropped(e.conn)
    }

    /** The usable connections of a list, the one returned last first. */
    ghost function UsableConns(entries: seq<Entry>, now: real, dropped: nat -> bool): (usable: seq<nat>)
      ensures |usable| <= |entries|
    {
      if entries == [] then []
      else
        var last := entries[|entries| - 1];
        (if Usable(last, now, dropped) then [last.conn] else []) + UsableConns(entries[..|entries| - 1], now, dropped)
    }

    /** They were idle, and usable. */
    lemma {:induction false} UsableWereIdle(entries: seq<Entry>, now: real, dropped: nat -> bool, k: nat)
      requires k < |UsableConns(entries, now, dropped)|
      ensures exists i :: 0 <= i < |entries| && entries[i].conn == UsableConns(entries, now, dropped)[k] && Usable(entries[i], now, dropped)
      decreases |entries|
    {
      var n := |entries| - 1;
      var init := entries[..n];
      var here := if Usable(entries[n], now, dropped) then 1 else 0;
      if here == 1 && k == 0 {
        assert entries[n].conn == UsableConns(entries, now, dropped)[k];
      } else {
        UsableWereIdle(init, now, dropped, k - here);
        var i :| 0 <= i < |init| && init[i].conn == UsableConns(init, now, dropped)[k - here] && Usable(init[i], now, dropped);
        assert entries[i] == init[i];
      }
    }

    /** The unusable connections of a list from index `kept` up. */
    ghost function UnusableConns(entries: seq<Entry>, kept: nat, now: real, dropped: nat -> bool): set<nat> {
      if |entries| <= kept then {}
      else
        var last := entries[|entries| - 1];
        UnusableConns(entries[..|entries| - 1], kept, now, dropped) + (if Usable(last, now, dropped) then {} else {last.conn})
    }

    lemma {:induction false} UnusableAre(entries: seq<Entry>, kept: nat, from: nat, now: real, dropped: nat -> bool)
      requires kept <= from && forall i :: kept <= i < |entries| ==> (!Usable(entries[i], now, dropped) <==> from <= i)
      ensures UnusableConns(entries, kept, now, dropped) == set i | from <= i < |entries| :: entries[i].conn
      decreases |entries|
    {
      if |entries| > kept {
        UnusableAre(entries[..|entries| - 1], kept, from, now, dropped);
      }
    }

    lemma {:induction false} UnusableAddUp(was: seq<Entry>, left: seq<Entry>, kept: nat, now: real, dropped: nat -> bool)
      requires left <= was && kept <= |left|
      ensures UnusableConns(was, kept, now, dropped) ==
        UnusableConns(was, |left|, now, dropped) + UnusableConns(left, kept, now, dropped)
      decreases |was|
    {
      if |left| < |was| {
        UnusableAddUp(was[..|was| - 1], left, kept, now, dropped);
      } else {
        assert left == was;
      }
    }

    /** Unusable entries above the newest usable one do not matter. */
    lemma {:induction false} NewestUsable(was: seq<Entry>, kept: nat, now: real, dropped: nat -> bool)
      requires kept < |was| && Usable(was[kept], now, dropped)
      requires forall i :: kept < i < |was| ==> !Usable(was[i], now, dropped)
      ensures UsableConns(was, now, dropped) == [was[kept].conn] + UsableConns(was[..kept], now, dropped)
      decreases |was|
    {
      var init := was[..|was| - 1];
      if kept < |init| {
        NewestUsable(init, kept, now, dropped);
        assert init[..kept] == was[..kept];
      }
    }

    lemma {:induction false} NoneUsable(was: seq<Entry>, now: real, dropped: nat -> bool)
      requires forall i :: 0 <= i < |was| ==> !Usable(was[i], now, dropped)
      ensures UsableConns(was, now, dropped) == []
      decreases |was|
    {
      if was != [] {
        NoneUsable(was[..|was| - 1], now, dropped);
      }
    }

    constructor (idleSeconds: real, maxIdle: nat)
      ensures Valid() && this.idleSeconds == idleSeconds && this.maxIdle == maxIdle
      ensures idle == map[] && closed == {}
    {
      this.idleSeconds, this.maxIdle := idleSeconds, maxIdle;
      idle, closed, nextConn := map[], {}, 0;
    }

    /** Hands out the most recently returned usable connection; closes and
        forgets the unusable ones above it, and leaves the rest idle. */
    method Take(key: Key, now: real, dropped: nat -> bool) returns (conn: Option<nat>)
      requires Valid()
      modifies this`idle, this`closed
      ensures Valid()
      ensures forall other :: other != key ==> Idle(other) == old(Idle(other))
      ensures Idle(key) <= old(Idle(key))
      ensures var was, kept := old(Idle(key)), |Idle(key)|;
        match conn
        case Some(c) =>
          && kept < |was| && c == was[kept].conn && Usable(was[kept], now, dropped)
          && (forall i :: kept < i < |was| ==> !Usable(was[i], now, dropped) && was[i].conn in closed)
          && closed == old(closed) + (set i | kept < i < |was| :: was[i].conn)
        case None =>
          && kept == 0
          && (forall i :: 0 <= i < |was| ==> !Usable(was[i], now, dropped) && was[i].conn in closed)
          && closed == old(closed) + (set i | 0 <= i < |was| :: was[i].conn)
    {
      ghost var was := old(Idle(key));
      while true
        invariant Valid()
        invariant forall other :: other != key ==> Idle(other) == old(Idle(other))
        invariant Idle(key) <= was
        invariant forall i :: |Idle(key)| <= i < |was| ==> !Usable(was[i], now, dropped) && was[i].conn in closed
        invariant closed == old(closed) + (set i | |Idle(key)| <= i < |was| :: was[i].conn)
        decreases |Idle(key)|
      {
        if key !in idle || idle[key] == [] {
          return None;
        }
        var entries := idle[key];
        var entry := entries[|entries| - 1];
        idle := idle[key := entries[..|entries| - 1]];
        if now - entry.returnedAt < idleSeconds && !dropped(entry.conn) {
          return Some(entry.conn);
        }
        closed := closed + {entry.conn};
      }
    }

    /** A connection comes back to its own origin's list, or is closed when that list is full. */
    method Give(key: Key, conn: nat, now: real)
      requires Valid() && conn < nextConn
      modifies this`idle, this`closed
      ensures Valid()
      ensures forall other :: other != key ==> Idle(other) == old(Idle(other))
      ensures var was := old(Idle(key));
        if |was| < maxIdle then Idle(key) == was + [Entry(conn, now)] && closed == old(closed)
        else Idle(key) == was && closed == old(closed) + {conn}
    {
      var entries := if key in idle then idle[key] else [];
      if |entries| < maxIdle {
        idle := idle[key := entries + [Entry(conn, now)]];
        return;
      }
      idle := idle[key := entries];
      closed := closed + {conn};
    }

    /** The connection a request starts with: an idle one, or a new one, which is
        closed at once when it cannot be made. */
    method Obtain(key: Key, now: real, dropped: nat -> bool, connectFails: bool) returns (conn: nat, reused: bool)
      requires Valid()
      modifies this
      ensures Valid() && old(closed) <= closed && Idle(key) <= old(Idle(key))
      ensures reused ==> |Idle(key)| < old(|Idle(key)|)
      ensures !reused ==> Idle(key) == [] && conn == old(nextConn) && (connectFails ==> conn in closed)
      ensures UsableConns(old(Idle(key)), now, dropped) == if reused then [conn] + UsableConns(Idle(key), now, dropped) else []
      ensures var shut := old(closed) + UnusableConns(old(Idle(key)), |Idle(key)|, now, dropped);
        closed == if !reused && connectFails then shut + {conn} else shut
      ensures nextConn == if reused then old(nextConn) else old(nextConn) + 1
    {
      ghost var was := Idle(key);
      var taken := Take(key, now, dropped);
      reused := taken.Some?;
      if reused {
        conn := taken.value;
        NewestUsable(was, |Idle(key)|, now, dropped);
        assert was[..|Idle(key)|] == Idle(key);
        UnusableAre(was, |Idle(key)|, |Idle(key)| + 1, now, dropped);
      } else {
        NoneUsable(was, now, dropped);
        UnusableAre(was, 0, 0, now, dropped);
        conn, nextConn := nextConn, nextConn + 1;
        if connectFails {
          closed := closed + {conn};
        }
      }
    }

    /** The first write of a request; a connection whose write brings no response is closed. */
    method FirstWrite(key: Key, now: real, dropped: nat -> bool, connectFails: bool, wire: Wire)
        returns (answer: Option<Answer>, conn: nat, reused: bool)
      requires Valid()
      modifies this
      ensures Valid() && Idle(key) <= old(Idle(key))
      ensures reused ==> |Idle(key)| < old(|Idle(key)|)
      ensures !reused ==> Idle(key) == [] && conn == old(nextConn)
      ensures nextConn == if reused then old(nextConn) else old(nextConn) + 1
      ensures UsableConns(old(Idle(key)), now, dropped) == if reused then [conn] + UsableConns(Idle(key), now, dropped) else []
      ensures answer == if !reused && connectFails then None else Some(wire.answer)
      ensures var shut := old(closed) + UnusableConns(old(Idle(key)), |Idle(key)|, now, dropped);
        closed == if answer.Some? && answer.value.Response? then shut else shut + {conn}
    {
      conn, reused := Obtain(key, now, dropped, connectFails);
      if !reused && connectFails {
        return None, conn, reused;
      }
      answer := Some(wire.answer);
      if !wire.answer.Response? {
        closed := closed + {conn};
      }
    }

    /** One call of `open_reusing`: `wire(k)` is what the k-th write of the
        request meets, `connectFails` says whether a new connection can be made;
        `conns` names the connection of each write. Only a GET or HEAD is ever
        written twice, every write but the last was on a connection that had been
        idle and failed before a response, and without another thread refilling
        the pool the recursion ends by the idle count. */
    method OpenReusing(key: Key, readOnly: bool, now: real, dropped: nat -> bool,
                       connectFails: bool, wire: nat -> Wire, first: nat)
        returns (answer: Option<Answer>, writes: seq<Wire>, conns: seq<nat>)
      requires Valid()
      modifies this
      ensures Valid()
      ensures |conns| == |writes| <= old(|Idle(key)|) + 1
      ensures Written(writes, wire, first)
      ensures OneCall(readOnly, writes, answer)
      ensures Tried(readOnly, connectFails, UsableConns(old(Idle(key)), now, dropped), old(nextConn), conns, answer)
      ensures Idle(key) <= old(Idle(key))
      ensures closed == ClosedAfter(old(closed), UnusableConns(old(Idle(key)), |Idle(key)|, now, dropped),
                                    FailedConns(writes, conns), if answer.None? then {old(nextConn)} else {})
      ensures answer.None? ==> connectFails
      ensures old(closed) <= closed
      decreases |Idle(key)|, 0
    {
      ghost var was, before := Idle(key), closed;
      var conn, reused;
      answer, conn, reused := FirstWrite(key, now, dropped, connectFails, wire(first));
      ghost var left, mid := Idle(key), closed;
      writes, conns := [], [];
      if answer.None? {
        return;
      }
      if reused && readOnly && Resendable(answer.value) {
        answer, writes, conns := Resend(key, conn, now, dropped, connectFails, wire, first);
        PrefixOfPrefix(Idle(key), left, was);
        UnusableAddUp(was, left, |Idle(key)|, now, dropped);
        ClosingAddsUp(before, mid, closed, UnusableConns(was, |left|, now, dropped), conn,
                      UnusableConns(left, |Idle(key)|, now, dropped), FailedConns(writes, conns),
                      if answer.None? then {old(nextConn)} else {});
      } else {
        OneMoreFailure(wire(first), conn, [], []);
        writes, conns := [wire(first)], [conn];
      }
    }

    /** The request, sent again after its write on the idle `conn` failed. */
    method Resend(key: Key, conn: nat, now: real, dropped: nat -> bool,
                  connectFails: bool, wire: nat -> Wire, first: nat)
        returns (answer: Option<Answer>, writes: seq<Wire>, conns: seq<nat>)
      requires Valid() && conn in closed && Resendable(wire(first).answer)
      modifies this
      ensures Valid() && Idle(key) <= old(Idle(key))
      ensures |conns| == |writes| <= old(|Idle(key)|) + 2 && conn in FailedConns(writes, conns)
      ensures Written(writes, wire, first) && OneCall(true, writes, answer)
      ensures Tried(true, connectFails, [conn] + UsableConns(old(Idle(key)), now, dropped), old(nextConn), conns, answer)
      ensures closed == ClosedAfter(old(closed), UnusableConns(old(Idle(key)), |Idle(key)|, now, dropped),
                                    FailedConns(writes, conns), if answer.None? then {old(nextConn)} else {})
      ensures answer.None? ==> connectFails
      decreases |Idle(key)|, 1
    {
      ghost var usable := UsableConns(Idle(key), now, dropped);
      var rest: seq<Wire>, used: seq<nat>;
      answer, rest, used := OpenReusing(key, true, now, dropped, connectFails, wire, first + 1);
      OneMoreWrite(true, wire, first, rest, answer);
      OneMoreFailure(wire(first), conn, rest, used);
      OneMoreTry(connectFails, conn, usable, old(nextConn), used, answer);
      writes, conns := [wire(first)] + rest, [conn] + used;
    }
  }

  /** A call tries the usable idle connections, the newest first, and then a fresh
      one. It gives up before the fresh one only with an answer that settles it, and
      ends without an answer only when all of them failed and no fresh one can be made. */
  ghost predicate Tried(readOnly: bool, connectFails: bool, usable: seq<nat>, next: nat, conns: seq<nat>, answer: Option<Answer>) {
    && conns <= usable + [next]
    && (answer.None? ==> connectFails && conns == usable)
    && (answer.Some? && readOnly && (answer.value.PeerClosed? || answer.value.Refused?) ==> conns == usable + [next])
    && (answer.Some? && connectFails ==> conns <= usable)
  }

  /** The connections whose write brought no response. */
  ghost function FailedConns(writes: seq<Wire>, conns: seq<nat>): set<nat>
    requires |writes| == |conns|
  {
    if writes == [] then {}
    else (if writes[0].answer.Response? then {} else {conns[0]}) + FailedConns(writes[1..], conns[1..])
  }

  lemma {:induction false} OneMoreFailure(written: Wire, conn: nat, writes: seq<Wire>, conns: seq<nat>)
    requires |writes| == |conns|
    ensures FailedConns([written] + writes, [conn] + conns) ==
      (if written.answer.Response? then {} else {conn}) + FailedConns(writes, conns)
  {
    assert ([written] + writes)[1..] == writes && ([conn] + conns)[1..] == conns;
  }

  lemma PrefixOfPrefix<T>(a: seq<T>, b: seq<T>, c: seq<T>)
    requires a <= b <= c
    ensures a <= c
  {
  }

  /** A call closes what it finds unusable, what fails, and a fresh connection that cannot be made. */
  ghost function ClosedAfter(before: set<nat>, unusable: set<nat>, failed: set<nat>, unmade: set<nat>): set<nat> {
    before + unusable + failed + unmade
  }

  lemma ClosingAddsUp(before: set<nat>, mid: set<nat>, after: set<nat>,
                      above: set<nat>, conn: nat, below: set<nat>, failed: set<nat>, last: set<nat>)
    requires mid == before + above + {conn} && after == ClosedAfter(mid, below, failed, last) && conn in failed
    ensures after == ClosedAfter(before, above + below, failed, last)
  {
  }

  lemma OneMoreTry(connectFails: bool, conn: nat, usable: seq<nat>, next: nat, conns: seq<nat>, answer: Option<Answer>)
    requires Tried(true, connectFails, usable, next, conns, answer)
    ensures Tried(true, connectFails, [conn] + usable, next, [conn] + conns, answer)
  {
    assert [conn] + (usable + [next]) == [conn] + usable + [next];
  }

  /** A read over stale idle connections alone is answered by the fresh one: as
      often as there are usable connections, its write may fail before a response. */
  lemma StaleConnsAreSkipped(wire: nat -> Wire, first: nat, connectFails: bool, usable: seq<nat>, next: nat,
                             answer: Option<Answer>, writes: seq<Wire>, conns: seq<nat>)
    requires |conns| == |writes| && Written(writes, wire, first) && OneCall(true, writes, answer)
    requires Tried(true, connectFails, usable, next, conns, answer)
    requires forall k :: first <= k < first + |usable| ==> wire(k).answer.PeerClosed? || wire(k).answer.Refused?
    ensures answer == if connectFails then None else Some(wire(first + |usable|).answer)
    ensures conns == if connectFails then usable else usable + [next]
  {
    if answer.Some? {
      var last := |writes| - 1;
      assert writes[last] == wire(first + last);
    }
  }

  /** The writes of one `open_reusing` call and the answer it gives its caller
      (None: no connection could be made). */
  ghost predicate OneCall(readOnly: bool, writes: seq<Wire>, answer: Option<Answer>) {
    && (|writes| > 1 || (writes != [] && answer.None?) ==> readOnly)
    && (forall k :: 0 <= k < |writes| - 1 ==> writes[k].answer.PeerClosed? || writes[k].answer.Refused?)
    && (answer.None? ==> forall k :: 0 <= k < |writes| ==> writes[k].answer.PeerClosed? || writes[k].answer.Refused?)
    && (answer.Some? ==> writes != [] && answer.value == writes[|writes| - 1].answer)
  }

  /** These are the writes from number `first` on. */
  ghost predicate Written(writes: seq<Wire>, wire: nat -> Wire, first: nat) {
    forall k :: 0 <= k < |writes| ==> writes[k] == wire(first + k)
  }

  lemma OneMoreWrite(readOnly: bool, wire: nat -> Wire, first: nat, rest: seq<Wire>, answer: Option<Answer>)
    requires OneCall(readOnly, rest, answer) && readOnly && Resendable(wire(first).answer)
    requires Written(rest, wire, first + 1)
    ensures OneCall(readOnly, [wire(first)] + rest, answer) && Written([wire(first)] + rest, wire, first)
  {
    forall k | 0 <= k <= |rest| ensures ([wire(first)] + rest)[k] == wire(first + k) {
      if k > 0 { assert rest[k - 1] == wire(first + 1 + (k - 1)); }
    }
  }

  // ----- reading a bounded body -----

  const READ_SIZE: nat := 64 * 1024

  /** The transport hands over some stretch of what is left, none only at the end. */
  ghost predicate Transport<Byte>(body: seq<Byte>, take: (nat, nat) -> nat) {
    && (forall at: nat, most: nat :: at <= |body| ==> at + take(at, most) <= |body| && take(at, most) <= most)
    && (forall at: nat, most: nat :: at < |body| && most > 0 ==> take(at, most) > 0)
  }

  function Most(at: nat, limit: nat): nat
    requires at <= limit
  {
    if READ_SIZE <= limit + 1 - at then READ_SIZE else limit + 1 - at
  }

  /** A read asks for no more than 64 KiB, and for no more than one byte beyond the limit. */
  lemma ReadsAreSmall(at: nat, limit: nat)
    requires at <= limit
    ensures 0 < Most(at, limit) <= 65536 && at + Most(at, limit) <= limit + 1
    ensures Most(at, limit) == 65536 || at + Most(at, limit) == limit + 1
  {
  }

  /** How many bytes a reader that holds `at` bytes holds in the end. */
  ghost function Held<Byte>(body: seq<Byte>, limit: nat, take: (nat, nat) -> nat, at: nat): nat
    requires Transport(body, take) && at <= |body| && at <= limit
    decreases |body| - at
  {
    var n := take(at, Most(at, limit));
    if n == 0 || at + n > limit then at + n else Held(body, limit, take, at + n)
  }

  /** It never holds more than one byte beyond the limit, and a body that fits is held whole. */
  lemma {:induction false} HeldIsBounded<Byte>(body: seq<Byte>, limit: nat, take: (nat, nat) -> nat, at: nat)
    requires Transport(body, take) && at <= |body| && at <= limit
    ensures Held(body, limit, take, at) <= limit + 1 && Held(body, limit, take, at) <= |body|
    ensures |body| <= limit ==> Held(body, limit, take, at) == |body|
    decreases |body| - at
  {
    var n := take(at, Most(at, limit));
    if n > 0 && at + n <= limit {
      HeldIsBounded(body, limit, take, at + n);
    }
  }

  /** `read_async_response`: refuses a body that says it is too long, reads the
      rest in whatever stretches come, and returns the whole body exactly when it
      fits the limit; `kept` is how many bytes it held at most. */
  method ReadBody<Byte>(body: seq<Byte>, contentLength: Option<int>, limit: nat, take: (nat, nat) -> nat)
      returns (r: Option<seq<Byte>>, kept: nat)
    requires Transport(body, take)
    ensures var refused := contentLength.Some? && contentLength.value > limit;
      && r == (if !refused && |body| <= limit then Some(body) else None)
      && kept == if refused then 0 else Held(body, limit, take, 0)
  {
    kept := 0;
    if contentLength.Some? && contentLength.value > limit {
      return None, 0;
    }
    var chunks: seq<Byte> := [];
    HeldIsBounded(body, limit, take, 0);
    while true
      invariant chunks <= body && kept == |chunks| <= limit
      invariant Held(body, limit, take, |chunks|) == Held(body, limit, take, 0)
      decreases |body| - |chunks|
    {
      var n := take(|chunks|, Most(|chunks|, limit));
      if n == 0 {
        break;
      }
      chunks := chunks + body[|chunks|..|chunks| + n];
      kept := |chunks|;
      if |chunks| > limit {
        return None, kept;
      }
    }
    assert chunks == body;
    r := Some(chunks);
  }

  // ----- every interleaving of requests that share the pool -----

  // Where a connection is. `Checking` and `Giving` are the moments between the
  // locked pool operation and what its thread does next.
  datatype Place = Idle | Checking | Requesting | InResponse(response: nat) | Giving | Closed

  // `clean`: its last response, if any, was fully read and let it stay open.
  datatype Conn = Conn(key: Key, place: Place, clean: bool)

  // A response keeps its connection until its first close().
  datatype Body = Body(conn: Option<nat>, fullyRead: bool, willClose: bool)

  datatype State = State(maxIdle: nat, idle: map<Key, seq<nat>>, conns: seq<Conn>, bodies: seq<Body>)

  datatype Step =
    | Pop(key: Key)
    | Accept(conn: nat)
    | Retire(conn: nat)
    | Connect(key: Key, ok: bool)
    | Answered(conn: nat, willClose: bool)
    | Fails(conn: nat)
    | ReadAll(body: nat)
    | CloseBody(body: nat)
    | GiveBack(conn: nat)

  ghost function IdleAt(s: State, key: Key): seq<nat> {
    if key in s.idle then s.idle[key] else []
  }

  ghost predicate Init(s: State) { s == State(s.maxIdle, map[], [], []) }

  ghost predicate Enabled(s: State, step: Step) {
    match step
    case Pop(key) => IdleAt(s, key) != [] && IdleAt(s, key)[|IdleAt(s, key)| - 1] < |s.conns|
    case Accept(c) => c < |s.conns| && s.conns[c].place == Checking
    case Retire(c) => c < |s.conns| && s.conns[c].place == Checking
    case Connect(_, _) => true
    case Answered(c, _) => c < |s.conns| && s.conns[c].place == Requesting
    case Fails(c) => c < |s.conns| && s.conns[c].place == Requesting
    case ReadAll(b) => b < |s.bodies|
    case CloseBody(b) => b < |s.bodies| && (s.bodies[b].conn.Some? ==> s.bodies[b].conn.value < |s.conns|)
    case GiveBack(c) => c < |s.conns| && s.conns[c].place == Giving
  }

  ghost function Move(s: State, c: nat, place: Place): State
    requires c < |s.conns|
  {
    s.(conns := s.conns[c := s.conns[c].(place := place)])
  }

  ghost function Apply(s: State, step: Step): State
    requires Enabled(s, step)
  {
    match step
    case Pop(key) =>
      var entries := IdleAt(s, key);
      Move(s.(idle := s.idle[key := entries[..|entries| - 1]]), entries[|entries| - 1], Checking)
    case Accept(c) => Move(s, c, Requesting)
    case Retire(c) => Move(s, c, Closed)
    case Connect(key, ok) =>
      s.(conns := s.conns + [Conn(key, if ok then Requesting else Closed, true)])
    case Answered(c, willClose) =>
      var dirty := s.(conns := s.conns[c := s.conns[c].(clean := false)]);
      Move(dirty.(bodies := s.bodies + [Body(Some(c), false, willClose)]), c, InResponse(|s.bodies|))
    case Fails(c) => Move(s, c, Closed)
    case ReadAll(b) => s.(bodies := s.bodies[b := s.bodies[b].(fullyRead := true)])
    case CloseBody(b) =>
      if s.bodies[b].conn.None? then s
      else
        var c := s.bodies[b].conn.value;
        var reusable := s.bodies[b].fullyRead && !s.bodies[b].willClose;
        var swapped := s.(bodies := s.bodies[b := s.bodies[b].(conn := None)],
                          conns := s.conns[c := s.conns[c].(clean := reusable)]);
        Move(swapped, c, if s.bodies[b].fullyRead && !s.bodies[b].willClose then Giving else Closed)
    case GiveBack(c) =>
      var key := s.conns[c].key;
      if |IdleAt(s, key)| < s.maxIdle then
        Move(s.(idle := s.idle[key := IdleAt(s, key) + [c]]), c, Idle)
      else Move(s, c, Closed)
  }

  ghost predicate Next(s: State, s': State) {
    exists step :: Enabled(s, step) && s' == Apply(s, step)
  }

  ghost predicate Listed(s: State, key: Key, c: nat) { c in IdleAt(s, key) }

  /** An idle list names idle connections of its own origin, each once, and no more than the limit. */
  ghost predicate ListInv(s: State, key: Key) {
    var entries := IdleAt(s, key);
    && |entries| <= s.maxIdle
    && (forall i, j :: 0 <= i < j < |entries| ==> entries[i] != entries[j])
    && (forall i :: 0 <= i < |entries| ==>
          entries[i] < |s.conns| && s.conns[entries[i]].place == Idle && s.conns[entries[i]].key == key)
  }

  ghost predicate ConnInv(s: State, c: nat)
    requires c < |s.conns|
  {
    var me := s.conns[c];
    && (me.place == Idle ==> Listed(s, me.key, c))
    && (me.place.InResponse? ==> me.place.response < |s.bodies| && s.bodies[me.place.response].conn == Some(c))
    && (!me.place.InResponse? && me.place != Closed ==> me.clean)
  }

  ghost predicate Inv(s: State) {
    && (forall key :: ListInv(s, key))
    && (forall c :: 0 <= c < |s.conns| ==> ConnInv(s, c))
    && (forall b :: 0 <= b < |s.bodies| && s.bodies[b].conn.Some? ==>
          s.bodies[b].conn.value < |s.conns| && s.conns[s.bodies[b].conn.value].place == InResponse(b))
  }

  lemma StepKeepsList(s: State, step: Step, key: Key)
    requires Inv(s) && Enabled(s, step)
    ensures ListInv(Apply(s, step), key)
  {
    assert ListInv(s, key);
    if step.Pop? {
      assert ListInv(s, step.key);
    }
  }

  lemma PopKeepsConn(s: State, key: Key, c: nat)
    requires Inv(s) && Enabled(s, Pop(key)) && c < |s.conns|
    ensures ConnInv(Apply(s, Pop(key)), c)
  {
    assert ConnInv(s, c) && ListInv(s, key);
    var entries := IdleAt(s, key);
    var kept := entries[..|entries| - 1];
    if s.conns[c].place == Idle && c != entries[|entries| - 1] && s.conns[c].key == key {
      var i :| 0 <= i < |entries| && entries[i] == c;
      assert kept[i] == c;
    }
  }

  lemma GiveBackKeepsConn(s: State, given: nat, c: nat)
    requires Inv(s) && Enabled(s, GiveBack(given)) && c < |s.conns|
    ensures ConnInv(Apply(s, GiveBack(given)), c)
  {
    assert ConnInv(s, c);
    if s.conns[c].place == Idle {
      assert Listed(s, s.conns[c].key, c);
      assert Listed(Apply(s, GiveBack(given)), s.conns[c].key, c);
    }
  }

  lemma StepKeepsConn(s: State, step: Step, c: nat)
    requires Inv(s) && Enabled(s, step) && c < |Apply(s, step).conns|
    ensures ConnInv(Apply(s, step), c)
  {
    if c < |s.conns| {
      assert ConnInv(s, c);
      match step
      case Pop(key) => PopKeepsConn(s, key, c);
      case GiveBack(given) => GiveBackKeepsConn(s, given, c);
      case _ =>
    }
  }

  lemma StepKeepsBody(s: State, step: Step, b: nat)
    requires Inv(s) && Enabled(s, step) && b < |Apply(s, step).bodies|
    requires Apply(s, step).bodies[b].conn.Some?
    ensures var s' := Apply(s, step); var c := s'.bodies[b].conn.value;
      c < |s'.conns| && s'.conns[c].place == InResponse(b)
  {
    if step.Pop? {
      assert ListInv(s, step.key);
    }
  }

  lemma StepKeepsInv(s: State, step: Step)
    requires Inv(s) && Enabled(s, step)
    ensures Inv(Apply(s, step))
  {
    var s' := Apply(s, step);
    forall key ensures ListInv(s', key) { StepKeepsList(s, step, key); }
    forall c | 0 <= c < |s'.conns| ensures ConnInv(s', c) { StepKeepsConn(s, step, c); }
    forall b | 0 <= b < |s'.bodies| && s'.bodies[b].conn.Some?
      ensures s'.bodies[b].conn.value < |s'.conns| && s'.conns[s'.bodies[b].conn.value].place == InResponse(b)
    {
      StepKeepsBody(s, step, b);
    }
  }

  /** Ownership is linear at every moment: an idle connection is listed exactly
      once, under its own origin, and is clean; one inside a response belongs to
      that response alone; no list exceeds the limit. */
  lemma PoolRuns(trace: seq<State>, i: nat)
    requires IsRun(trace, Init, Next) && i < |trace|
    ensures var s := trace[i];
      && (forall key :: |IdleAt(s, key)| <= s.maxIdle)
      && (forall key, k, l :: 0 <= k < l < |IdleAt(s, key)| ==> IdleAt(s, key)[k] != IdleAt(s, key)[l])
      && (forall key, c: nat :: Listed(s, key, c) <==> c < |s.conns| && s.conns[c].place == Idle && s.conns[c].key == key)
      && (forall c :: 0 <= c < |s.conns| && s.conns[c].place == Idle ==> s.conns[c].clean)
      && (forall c, b :: 0 <= c < |s.conns| && 0 <= b < |s.bodies| ==>
            (s.bodies[b].conn == Some(c) <==> s.conns[c].place == InResponse(b)))
  {
    forall s, s' | Inv(s) && Next(s, s') ensures Inv(s') {
      var step :| Enabled(s, step) && s' == Apply(s, step);
      StepKeepsInv(s, step);
    }
    InvariantOfRun(trace, Init, Next, Inv);
    var s := trace[i];
    assert Inv(s);
    forall key
      ensures |IdleAt(s, key)| <= s.maxIdle
      ensures forall k, l :: 0 <= k < l < |IdleAt(s, key)| ==> IdleAt(s, key)[k] != IdleAt(s, key)[l]
      ensures forall c: nat :: Listed(s, key, c) ==>
        c < |s.conns| && s.conns[c].place == Idle && s.conns[c].key == key
    {
      assert ListInv(s, key);
    }
    forall c | 0 <= c < |s.conns|
      ensures s.conns[c].place == Idle ==> Listed(s, s.conns[c].key, c) && s.conns[c].clean
      ensures forall b :: 0 <= b < |s.bodies| && s.conns[c].place == InResponse(b) ==> s.bodies[b].conn == Some(c)
    {
      assert ConnInv(s, c);
    }
  }

  /** A closed connection is never handed out again. */
  lemma ClosedIsFinal(trace: seq<State>, i: nat, c: nat, step: Step)
    requires IsRun(trace, Init, Next) && i < |trace|
    requires c < |trace[i].conns| && trace[i].conns[c].place == Closed && Enabled(trace[i], step)
    ensures c < |Apply(trace[i], step).conns| && Apply(trace[i], step).conns[c].place == Closed
  {
    PoolRuns(trace, i);
    var s := trace[i];
    if step.Pop? {
      assert Listed(s, step.key, IdleAt(s, step.key)[|IdleAt(s, step.key)| - 1]);
    }
  }

  /** Closing a response again, at once or after any other steps, changes nothing. */
  lemma CloseAgain(s: State, b: nat)
    requires Enabled(s, CloseBody(b))
    ensures Apply(s, CloseBody(b)).bodies[b].conn == None
    ensures Enabled(Apply(s, CloseBody(b)), CloseBody(b))
    ensures Apply(Apply(s, CloseBody(b)), CloseBody(b)) == Apply(s, CloseBody(b))
    ensures forall step :: Enabled(s, step) && s.bodies[b].conn == None ==>
      b < |Apply(s, step).bodies| && Apply(s, step).bodies[b].conn == None
  {
  }

  lemma StepIsNext(s: State, step: Step)
    requires Enabled(s, step)
    ensures Next(s, Apply(s, step))
  {
  }

  /** The response has let go of its connection, which is the last on its origin's list. */
  ghost predicate Returned(s: State, s': State, key: Key, c: nat, b: nat) {
    && IdleAt(s', key) == IdleAt(s, key) + [c]
    && b < |s'.bodies| && s'.bodies[b].conn == None && c < |s'.conns| && s'.conns[c].place == Idle
  }

  /** Reading a response to its end and closing it puts its connection on its
      origin's idle list, if that has room, from where the next request takes it. */
  lemma FullyReadIsReused(s: State, key: Key, c: nat, b: nat)
    requires c < |s.conns| && s.conns[c].key == key
    requires b < |s.bodies| && s.bodies[b].conn == Some(c) && !s.bodies[b].willClose
    requires |IdleAt(s, key)| < s.maxIdle
    ensures exists s1, s2, s3 :: Next(s, s1) && Next(s1, s2) && Next(s2, s3) && Returned(s, s3, key, c, b) && Rerequests(s3, c)
  {
    var s1 := Apply(s, ReadAll(b));
    StepIsNext(s, ReadAll(b));
    var s2 := Apply(s1, CloseBody(b));
    StepIsNext(s1, CloseBody(b));
    var s3 := Apply(s2, GiveBack(c));
    StepIsNext(s2, GiveBack(c));
    assert Returned(s, s3, key, c, b);
    LastIdleIsReused(s3, key, c);
  }

  /** Two steps lead to a state where this connection carries a request. */
  ghost predicate Rerequests(s: State, c: nat) {
    exists s1, s2 :: Next(s, s1) && Next(s1, s2) && c < |s2.conns| && s2.conns[c].place == Requesting
  }

  lemma LastIdleIsReused(s: State, key: Key, c: nat)
    requires c < |s.conns| && IdleAt(s, key) != [] && IdleAt(s, key)[|IdleAt(s, key)| - 1] == c
    ensures Rerequests(s, c)
  {
    var s1 := Apply(s, Pop(key));
    StepIsNext(s, Pop(key));
    StepIsNext(s1, Accept(c));
    assert Apply(s1, Accept(c)).conns[c].place == Requesting;
  }

  /** A response closed before its end, or one whose server closes, takes its
      connection with it, and so does a failed request or a full list; one that
      turns out unusable is closed too. */
  lemma OtherConnsAreClosed(s: State, c: nat)
    requires c < |s.conns|
    ensures forall b :: 0 <= b < |s.bodies| && s.bodies[b].conn == Some(c) && (s.bodies[b].willClose || !s.bodies[b].fullyRead) ==>
      exists s' :: Next(s, s') && c < |s'.conns| && s'.conns[c].place == Closed && s'.idle == s.idle
    ensures s.conns[c].place == Requesting || s.conns[c].place == Checking
            || (s.conns[c].place == Giving && |IdleAt(s, s.conns[c].key)| >= s.maxIdle) ==>
      exists s' :: Next(s, s') && c < |s'.conns| && s'.conns[c].place == Closed && s'.idle == s.idle
  {
    forall b | 0 <= b < |s.bodies| && s.bodies[b].conn == Some(c) && (s.bodies[b].willClose || !s.bodies[b].fullyRead)
      ensures exists s' :: Next(s, s') && c < |s'.conns| && s'.conns[c].place == Closed && s'.idle == s.idle
    {
      StepIsNext(s, CloseBody(b));
      assert Apply(s, CloseBody(b)).conns[c].place == Closed;
    }
    match s.conns[c].place
    case Requesting =>
      StepIsNext(s, Fails(c));
      assert Apply(s, Fails(c)).conns[c].place == Closed;
    case Checking =>
      StepIsNext(s, Retire(c));
      assert Apply(s, Retire(c)).conns[c].place == Closed;
    case Giving =>
      if |IdleAt(s, s.conns[c].key)| >= s.maxIdle {
        StepIsNext(s, GiveBack(c));
        assert Apply(s, GiveBack(c)).conns[c].place == Closed;
      }
    case _ =>
  }

  /** The pool starts empty. A new connection carries a request at once, or is closed when it cannot be made;
      a request that is answered hands its connection to its response, unread. */
  lemma RequestsAndResponses(s: State, key: Key, c: nat, willClose: bool)
    ensures Init(State(s.maxIdle, map[], [], []))
    ensures Next(s, s.(conns := s.conns + [Conn(key, Requesting, true)]))
    ensures Next(s, s.(conns := s.conns + [Conn(key, Closed, true)]))
    ensures c < |s.conns| && s.conns[c].place == Requesting ==>
      exists s' :: Next(s, s') && Handed(s, s', c, willClose)
  {
    StepIsNext(s, Connect(key, true));
    StepIsNext(s, Connect(key, false));
    if c < |s.conns| && s.conns[c].place == Requesting {
      StepIsNext(s, Answered(c, willClose));
      assert Handed(s, Apply(s, Answered(c, willClose)), c, willClose);
    }
  }

  ghost predicate Handed(s: State, s': State, c: nat, willClose: bool) {
    && s'.bodies == s.bodies + [Body(Some(c), false, willClose)]
    && c < |s'.conns| && s'.conns[c].place == InResponse(|s.bodies|) && s'.idle == s.idle
  }
}
