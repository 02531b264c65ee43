/** Draining the numbered events of an exec session
    (src/ucloud_sandboxes_sdk/client.py). */
module ExecDrain {
  import opened Prelude

  datatype Stream = Stdout | Stderr | Unnamed

  // `sequence` is None when the field is not an integer.
  datatype Event = Event(sequence: Option<int>, stream: Stream, data: string)

  // `final` is None unless final_sequence is a non-negative integer.
  datatype Session = Session(terminal: bool, final: Option<nat>)

  // `wellFormed` is false when the events are not a list of objects.
  datatype Page = Page(wellFormed: bool, events: seq<Event>, session: Option<Session>)

  datatype Error = MalformedPage | InvalidSequence | HistoryLost(expected: int, received: int)

  /** Numbered after + 1, after + 2, ... without a gap or a repeat. */
  ghost predicate Numbered(events: seq<Event>, after: nat) {
    forall k :: 0 <= k < |events| ==> events[k].sequence == Some(after + 1 + k)
  }

  /** What is wrong with the first event that does not go on after `after`, if any is. */
  function Misfit(events: seq<Event>, after: nat): Option<Error> {
    if events == [] then None
    else match events[0].sequence
      case None => Some(InvalidSequence)
      case Some(received) =>
        if received != after + 1 then Some(HistoryLost(after + 1, received)) else Misfit(events[1..], after + 1)
  }

  function PageError(p: Page, after: nat): Option<Error> {
    if p.wellFormed then Misfit(p.events, after) else Some(MalformedPage)
  }

  lemma {:induction false} MisfitMeaning(events: seq<Event>, after: nat)
    ensures Misfit(events, after).None? <==> Numbered(events, after)
  {
    if events != [] {
      MisfitMeaning(events[1..], after + 1);
      assert events[0].sequence == Some(after + 1 + 0) && Numbered(events[1..], after + 1) ==> Numbered(events, after) by {
        assert forall k :: 0 < k < |events| ==> events[k] == events[1..][k - 1];
      }
      assert Numbered(events, after) ==> Numbered(events[1..], after + 1);
    }
  }

  ghost function Flatten(pages: seq<Page>): seq<Event> {
    if pages == [] then [] else Flatten(pages[..|pages| - 1]) + pages[|pages| - 1].events
  }

  /** What a stream's reader sees of some events. */
  function Output(events: seq<Event>, stream: Stream): string {
    if events == [] then ""
    else (if events[0].stream == stream then events[0].data else "") + Output(events[1..], stream)
  }

  lemma {:induction false} OutputOfConcat(a: seq<Event>, b: seq<Event>, stream: Stream)
    ensures Output(a + b, stream) == Output(a, stream) + Output(b, stream)
  {
    if a == [] {
      assert a + b == b;
    } else {
      assert (a + b)[1..] == a[1..] + b;
      OutputOfConcat(a[1..], b, stream);
    }
  }

  /** The data of some events, whatever their streams. */
  function AllData(events: seq<Event>): string {
    if events == [] then "" else events[0].data + AllData(events[1..])
  }

  /** The events of one stream, in their order. */
  function Of(events: seq<Event>, stream: Stream): (own: seq<Event>)
    ensures forall e :: e in own <==> e in events && e.stream == stream
    ensures (forall e :: e in events ==> e.stream == stream) ==> own == events
  {
    if events == [] then []
    else (if events[0].stream == stream then [events[0]] else []) + Of(events[1..], stream)
  }

  /** Everything that was written to a stream. */
  ghost function Written(events: seq<Event>, stream: Stream): string { AllData(Of(events, stream)) }

  /** A reader sees all that was written to its stream, in order, and nothing else. */
  lemma {:induction false} OutputIsWritten(events: seq<Event>, stream: Stream)
    ensures Output(events, stream) == Written(events, stream)
    decreases |events|
  {
    if events != [] {
      OutputIsWritten(events[1..], stream);
      var rest := Of(events[1..], stream);
      if events[0].stream == stream {
        assert ([events[0]] + rest)[1..] == rest;
        assert AllData([events[0]] + rest) == events[0].data + AllData(rest);
      } else {
        assert [] + rest == rest && "" + AllData(rest) == AllData(rest);
      }
    }
  }

  /** So events of one stream alone give all their data, the events of other streams
      change nothing, and a stream without events stays empty. */
  lemma {:induction false} OutputOfStreams(events: seq<Event>, stream: Stream)
    ensures (forall e :: e in events ==> e.stream == stream) ==> Output(events, stream) == AllData(events)
    ensures (forall e :: e in events ==> e.stream != stream) ==> Output(events, stream) == ""
    ensures Output(Of(events, stream), stream) == Output(events, stream)
  {
    OutputIsWritten(events, stream);
    OutputIsWritten(Of(events, stream), stream);
    if forall e :: e in events ==> e.stream != stream {
      assert forall e :: e !in Of(events, stream);
      assert Of(events, stream) == [];
    }
  }

  function Offered(initial: Option<Page>, answers: seq<Page>): seq<Page> {
    (if initial.Some? then [initial.value] else []) + answers
  }

  function NewSession(session: Session, p: Page): Session {
    if p.session.Some? then p.session.value else session
  }

  ghost function SessionAfter(session: Session, pages: seq<Page>): Session {
    if pages == [] then session
    else NewSession(SessionAfter(session, pages[..|pages| - 1]), pages[|pages| - 1])
  }

  /** The loop stops after these pages, the last of which brought `recent`. */
  predicate StopsAt(session: Session, last: nat, recent: seq<Event>) {
    session.terminal && (if session.final.Some? then last >= session.final.value else recent == [])
  }

  ghost predicate Stops(after: nat, was: Session, pages: seq<Page>)
    requires pages != []
  {
    StopsAt(SessionAfter(was, pages), after + |Flatten(pages)|, pages[|pages| - 1].events)
  }

  /** None of the first n pages made the loop stop. */
  ghost predicate ReadsOn(after: nat, was: Session, pages: seq<Page>, n: int) {
    n <= |pages| && forall j :: 0 < j <= n ==> !Stops(after, was, pages[..j])
  }

  // ----- one event history, served in slices -----

  /** A page holds the events of `history` after the first `after`; its session,
      if it names a final sequence, names the last event of the history. */
  ghost predicate SliceOf(history: seq<Event>, after: nat, p: Page) {
    && p.wellFormed && after + |p.events| <= |history|
    && p.events == history[after..after + |p.events|]
    && (p.session.Some? && p.session.value.final.Some? ==> p.session.value.final.value == |history|)
  }

  ghost predicate SlicesOf(history: seq<Event>, after: nat, pages: seq<Page>)
    decreases |pages|
  {
    pages == []
    || (SliceOf(history, after, pages[0]) && SlicesOf(history, after + |pages[0].events|, pages[1..]))
  }

  // Where a loop started, and the pages it was going to be offered.
  datatype Run = Run(after: nat, was: Session, offered: seq<Page>)

  datatype End = Drained | TimedOut | Failed(error: Error) | PagesUsedUp

  class ExecState {
    var lastSequence: nat
    var session: Session
    var initial: Option<Page>

    constructor (session: Session, initial: Option<Page>)
      ensures this.lastSequence == 0 && this.session == session && this.initial == initial
    {
      lastSequence, this.session, this.initial := 0, session, initial;
    }

    method TakeInitial() returns (page: Option<Page>)
      modifies this`initial
      ensures page == old(initial) && initial == None
    {
      page, initial := initial, None;
    }

    /** Accepts a page whose events go on exactly where the last ones ended. The
        counter moves event by event, so a refused page leaves it at the first
        event that did not fit, and leaves the session alone. */
    method AcceptEvents(page: Page) returns (r: Result<seq<Event>, Error>)
      modifies this`lastSequence, this`session
      ensures r.Ok? <==> page.wellFormed && Numbered(page.events, old(lastSequence))
      ensures r.Ok? ==>
        && r.value == page.events && lastSequence == old(lastSequence) + |page.events|
        && session == NewSession(old(session), page)
      ensures r.Err? ==>
        && session == old(session) && PageError(page, old(lastSequence)) == Some(r.error)
        && var good := lastSequence - old(lastSequence);
           if page.wellFormed then
             && 0 <= good < |page.events| && Numbered(page.events[..good], old(lastSequence))
             && page.events[good].sequence != Some(lastSequence + 1)
           else good == 0
      ensures r.Err? ==>
        r.error == if !page.wellFormed then MalformedPage
                   else match page.events[lastSequence - old(lastSequence)].sequence
                        case None => InvalidSequence
                        case Some(received) => HistoryLost(lastSequence + 1, received)
    {
      if !page.wellFormed {
        return Err(MalformedPage);
      }
      var i := 0;
      while i < |page.events|
        invariant 0 <= i <= |page.events| && lastSequence == old(lastSequence) + i
        invariant Numbered(page.events[..i], old(lastSequence))
        invariant session == old(session)
        invariant Misfit(page.events, old(lastSequence)) == Misfit(page.events[i..], lastSequence)
      {
        assert page.events[i..][1..] == page.events[i + 1..];
        var received := page.events[i].sequence;
        if received.None? {
          return Err(InvalidSequence);
        }
        if received.value != lastSequence + 1 {
          return Err(HistoryLost(lastSequence + 1, received.value));
        }
        lastSequence := lastSequence + 1;
        i := i + 1;
      }
      assert page.events[..i] == page.events;
      if page.session.Some? {
        session := page.session.value;
      }
      return Ok(page.events);
    }

    predicate EventsDrained(events: seq<Event>)
      reads this
    {
      StopsAt(session, lastSequence, events)
    }

    /** One round: the initial page first, once, then the answers. `left` are the
        pages that remain afterwards. */
    method NextPage(answers: seq<Page>, used: nat)
        returns (accepted: Option<Result<seq<Event>, Error>>, used': nat, ghost page: Page, ghost left: seq<Page>)
      requires used <= |answers|
      modifies this
      ensures initial == None && used <= used' <= |answers| && left == Offered(None, answers[used'..])
      ensures accepted.None? ==>
        Offered(old(initial), answers[used..]) == [] && lastSequence == old(lastSequence) && session == old(session)
      ensures accepted.Some? ==>
        && Offered(old(initial), answers[used..]) == [page] + left
        && (accepted.value.Ok? <==> page.wellFormed && Numbered(page.events, old(lastSequence)))
        && (accepted.value.Ok? ==>
              && accepted.value.value == page.events && lastSequence == old(lastSequence) + |page.events|
              && session == NewSession(old(session), page))
        && (accepted.value.Err? ==>
              session == old(session) && PageError(page, old(lastSequence)) == Some(accepted.value.error))
    {
      used' := used;
      var next := TakeInitial();
      if next.None? && used < |answers| {
        next, used' := Some(answers[used]), used + 1;
      }
      left, page := answers[used'..], Page(true, [], None);
      if next.None? {
        return None, used', page, left;
      }
      page := next.value;
      var r := AcceptEvents(next.value);
      accepted := Some(r);
    }

    /** Where a loop over pages stands: `pages` were accepted, the rest is still to come. */
    ghost predicate Along(run: Run, answers: seq<Page>, used: nat, pages: seq<Page>, events: seq<Event>)
      reads this
    {
      && used <= |answers| && lastSequence == run.after + |events|
      && (pages != [] ==> initial == None)
      && Collected(run.after, run.was, run.offered, pages, events, session)
      && ReadsOn(run.after, run.was, pages, |pages|)
      && run.offered[|pages|..] == Offered(initial, answers[used..])
    }

    /** One round of a loop that stands at `Along`. */
    method Round(answers: seq<Page>, used: nat, ghost run: Run, ghost pages: seq<Page>, events: seq<Event>)
        returns (stop: Option<End>, events': seq<Event>, used': nat, ghost pages': seq<Page>)
      requires Along(run, answers, used, pages, events)
      modifies this
      ensures pages' != [] ==> initial == None
      ensures stop.None? ==>
        && Along(run, answers, used', pages', events') && |pages'| == |pages| + 1
        && |Offered(initial, answers[used'..])| < |Offered(old(initial), answers[used..])|
      ensures stop.Some? ==>
        && |pages'| == |pages| + (if stop == Some(Drained) then 1 else 0)
        && !stop.value.TimedOut? && Collected(run.after, run.was, run.offered, pages', events', session)
        && Ended(run, pages', events', stop.value, lastSequence)
    {
      ghost var page, left;
      var accepted;
      accepted, used', page, left := NextPage(answers, used);
      events', pages' := events, pages;
      if accepted.None? {
        return Some(PagesUsedUp), events', used', pages';
      }
      HeadOfRest(run.offered, |pages|, page, left);
      if accepted.value.Err? {
        return Some(Failed(accepted.value.error)), events', used', pages';
      }
      CollectMore(run.after, run.was, run.offered, pages, events, page);
      ReadMore(run.after, run.was, pages, page);
      pages', events' := pages + [page], events + accepted.value.value;
      var drained := EventsDrained(accepted.value.value);
      stop := if drained then Some(Drained) else None;
    }

    /** `wait`: the deadline passes before page number `lateAt`, if ever. */
    method Wait(answers: seq<Page>, lateAt: Option<nat>)
        returns (end: End, stdout: string, stderr: string, events: seq<Event>, ghost pages: seq<Page>)
      modifies this
      ensures Collected(old(lastSequence), old(session), Offered(old(initial), answers), pages, events, session)
      ensures pages != [] ==> initial == None
      ensures Ended(Run(old(lastSequence), old(session), Offered(old(initial), answers)), pages, events, end, lastSequence)
      ensures end == Drained ==> stdout == Written(events, Stdout) && stderr == Written(events, Stderr)
      ensures end == TimedOut ==> lateAt.Some? && |pages| == lateAt.value
      ensures lateAt.Some? && end != TimedOut ==> |pages| < lateAt.value || (end == Drained && |pages| == lateAt.value)
    {
      ghost var run := Run(lastSequence, session, Offered(initial, answers));
      events, pages, stdout, stderr := [], [], "", "";
      var used: nat, round: nat := 0, 0;
      while true
        invariant Along(run, answers, used, pages, events) && round == |pages|
        invariant lateAt.Some? ==> round <= lateAt.value
        decreases |Offered(initial, answers[used..])|
      {
        if lateAt.Some? && round >= lateAt.value {
          return TimedOut, stdout, stderr, events, pages;
        }
        var stop;
        stop, events, used, pages := Round(answers, used, run, pages, events);
        if stop.Some? {
          if stop == Some(Drained) {
            OutputIsWritten(events, Stdout);
            OutputIsWritten(events, Stderr);
            stdout, stderr := Output(events, Stdout), Output(events, Stderr);
          }
          return stop.value, stdout, stderr, events, pages;
        }
        round := round + 1;
      }
    }

    /** `events`: the same pages, without a deadline; `parts` is what it yielded. */
    method Events(answers: seq<Page>) returns (end: End, parts: seq<Event>, ghost pages: seq<Page>)
      modifies this
      ensures Collected(old(lastSequence), old(session), Offered(old(initial), answers), pages, parts, session)
      ensures pages != [] ==> initial == None
      ensures Ended(Run(old(lastSequence), old(session), Offered(old(initial), answers)), pages, parts, end, lastSequence)
      ensures end != TimedOut
    {
      ghost var run := Run(lastSequence, session, Offered(initial, answers));
      parts, pages := [], [];
      var used: nat := 0;
      while true
        invariant Along(run, answers, used, pages, parts)
        decreases |Offered(initial, answers[used..])|
      {
        var stop;
        stop, parts, used, pages := Round(answers, used, run, pages, parts);
        if stop.Some? {
          return stop.value, parts, pages;
        }
      }
    }
  }

  lemma HeadOfRest<T>(s: seq<T>, k: nat, head: T, rest: seq<T>)
    requires k <= |s| && s[k..] == [head] + rest
    ensures k < |s| && s[k] == head && s[k + 1..] == rest
  {
    assert s[k] == s[k..][0];
    assert s[k + 1..] == s[k..][1..];
  }

  /** The collected events are those of the accepted pages, in order, each once;
      the pages are the first of those offered. */
  ghost predicate Collected(after: nat, was: Session, offered: seq<Page>, pages: seq<Page>, events: seq<Event>, now: Session) {
    && pages <= offered
    && events == Flatten(pages) && Numbered(events, after)
    && now == SessionAfter(was, pages)
  }

  lemma {:induction false} CollectMore(after: nat, was: Session, offered: seq<Page>, pages: seq<Page>, events: seq<Event>, p: Page)
    requires Collected(after, was, offered, pages, events, SessionAfter(was, pages))
    requires |pages| < |offered| && offered[|pages|] == p && Numbered(p.events, after + |events|)
    ensures var pages' := pages + [p];
      Collected(after, was, offered, pages', events + p.events, NewSession(SessionAfter(was, pages), p))
  {
    assert (pages + [p])[..|pages|] == pages;
  }

  lemma ReadMore(after: nat, was: Session, pages: seq<Page>, p: Page)
    requires ReadsOn(after, was, pages, |pages|)
    ensures ReadsOn(after, was, pages + [p], |pages|)
    ensures !Stops(after, was, pages + [p]) ==> ReadsOn(after, was, pages + [p], |pages| + 1)
  {
    assert (pages + [p])[..|pages| + 1] == pages + [p];
    forall j | 0 < j <= |pages| ensures !Stops(after, was, (pages + [p])[..j]) {
      assert (pages + [p])[..j] == pages[..j];
    }
  }

  /** Why a loop over pages ended: it reads on until a page makes it stop, and not
      past that page. */
  ghost predicate Ended(run: Run, pages: seq<Page>, events: seq<Event>, end: End, last: nat) {
    match end
    case Failed(error) =>
      && |pages| < |run.offered| && ReadsOn(run.after, run.was, pages, |pages|)
      && PageError(run.offered[|pages|], run.after + |events|) == Some(error)
    case PagesUsedUp =>
      pages == run.offered && last == run.after + |events| && ReadsOn(run.after, run.was, pages, |pages|)
    case TimedOut => last == run.after + |events| && ReadsOn(run.after, run.was, pages, |pages|)
    case Drained =>
      && last == run.after + |events| && pages != []
      && ReadsOn(run.after, run.was, pages, |pages| - 1) && Stops(run.after, run.was, pages)
  }

  // ----- when a loop stops -----

  /** The session is the latest one that a page brought. */
  lemma {:induction false} LatestSession(was: Session, pages: seq<Page>, k: nat)
    requires k <= |pages| && forall j :: k <= j < |pages| ==> pages[j].session == None
    ensures k > 0 && pages[k - 1].session.Some? ==> SessionAfter(was, pages) == pages[k - 1].session.value
    ensures k == 0 ==> SessionAfter(was, pages) == was
    decreases |pages|
  {
    if k < |pages| {
      LatestSession(was, pages[..|pages| - 1], k);
    }
  }

  /** A drained loop has seen the session end. A session that names its last event is
      read up to it; one that does not is read until a page brings nothing. No
      earlier page showed as much. */
  lemma {:induction false} StopRule(run: Run, pages: seq<Page>, events: seq<Event>, last: nat)
    requires Ended(run, pages, events, Drained, last) && events == Flatten(pages)
    ensures pages != [] && SessionAfter(run.was, pages).terminal && last == run.after + |events|
    ensures match SessionAfter(run.was, pages).final
      case Some(final) => final <= last
      case None => pages[|pages| - 1].events == []
    ensures forall j :: 0 < j < |pages| ==>
      var s := SessionAfter(run.was, pages[..j]);
      s.terminal ==> match s.final
        case Some(final) => final > run.after + |Flatten(pages[..j])|
        case None => pages[j - 1].events != []
  {
    forall j | 0 < j < |pages| ensures !Stops(run.after, run.was, pages[..j]) {
    }
  }

  /** A server that never names the last event, but whose ended session answers with
      no events only when there are none left, is drained completely as well. */
  lemma {:induction false} EmptyPageConfirms(history: seq<Event>, after: nat, was: Session, offered: seq<Page>,
                         pages: seq<Page>, events: seq<Event>, last: nat, session: Session)
    requires Numbered(history, 0) && after <= |history| && SlicesOf(history, after, offered)
    requires was.final.Some? ==> was.final.value == |history|
    requires forall k :: 0 <= k < |offered| && offered[k].events == [] && SessionAfter(was, offered[..k + 1]).terminal ==>
      after + |Flatten(offered[..k])| == |history|
    requires Collected(after, was, offered, pages, events, session)
    requires Ended(Run(after, was, offered), pages, events, Drained, last)
    ensures Completes(history, after, events)
  {
    DrainsTheHistory(history, after, was, offered, pages, events, Drained, last, session);
    StopRule(Run(after, was, offered), pages, events, last);
    if session.final.None? {
      var k := |pages| - 1;
      assert offered[..k + 1] == pages && offered[..k] == pages[..k];
      assert events == Flatten(pages[..k]) + [];
      AllOfHistory(history, after, events);
    }
  }

  // ----- slices of one history -----

  lemma {:induction false} SlicesAddUp(history: seq<Event>, after: nat, pages: seq<Page>)
    requires SlicesOf(history, after, pages)
    ensures after + |Flatten(pages)| <= |history| || pages == []
    ensures pages != [] ==> Flatten(pages) == history[after..after + |Flatten(pages)|]
    decreases |pages|
  {
    if pages != [] {
      SlicesAddUp(history, after + |pages[0].events|, pages[1..]);
      FlattenFirst(pages);
    }
  }

  lemma {:induction false} FlattenFirst(pages: seq<Page>)
    requires pages != []
    ensures Flatten(pages) == pages[0].events + Flatten(pages[1..])
    decreases |pages|
  {
    if |pages| == 1 {
      assert pages[..0] == [] && pages[1..] == [];
    } else {
      var init, last := pages[..|pages| - 1], pages[|pages| - 1];
      FlattenFirst(init);
      assert pages[1..][..|pages| - 2] == init[1..];
      Associative(init[0].events, Flatten(init[1..]), last.events);
    }
  }

  lemma {:induction false} FinalNamesTheEnd(history: seq<Event>, after: nat, was: Session, pages: seq<Page>)
    requires SlicesOf(history, after, pages) && (was.final.Some? ==> was.final.value == |history|)
    ensures SessionAfter(was, pages).final.Some? ==> SessionAfter(was, pages).final.value == |history|
    decreases |pages|
  {
    if pages != [] {
      SlicesOfPrefix(history, after, pages, |pages| - 1);
      SliceAt(history, after, pages, |pages| - 1);
      FinalNamesTheEnd(history, after, was, pages[..|pages| - 1]);
    }
  }

  lemma {:induction false} SliceAt(history: seq<Event>, after: nat, offered: seq<Page>, k: nat)
    requires SlicesOf(history, after, offered) && k < |offered|
    ensures SliceOf(history, after + |Flatten(offered[..k])|, offered[k])
    decreases k
  {
    if k == 0 {
      assert offered[..0] == [];
    } else {
      SliceAt(history, after + |offered[0].events|, offered[1..], k - 1);
      FlattenFirst(offered[..k]);
      assert offered[..k][1..] == offered[1..][..k - 1];
    }
  }

  lemma {:induction false} SlicesOfPrefix(history: seq<Event>, after: nat, offered: seq<Page>, k: nat)
    requires SlicesOf(history, after, offered) && k <= |offered|
    ensures SlicesOf(history, after, offered[..k])
    decreases k
  {
    if k > 0 {
      SlicesOfPrefix(history, after + |offered[0].events|, offered[1..], k - 1);
      assert offered[..k][1..] == offered[1..][..k - 1];
    }
  }

  /** A slice is always a page that the loop accepts at its place. */
  lemma {:induction false} SliceFits(history: seq<Event>, after: nat, offered: seq<Page>, k: nat)
    requires Numbered(history, 0) && SlicesOf(history, after, offered) && k < |offered|
    ensures offered[k].wellFormed && Numbered(offered[k].events, after + |Flatten(offered[..k])|)
  {
    SliceAt(history, after, offered, k);
  }

  lemma {:induction false} StretchOfHistory(history: seq<Event>, after: nat, offered: seq<Page>, pages: seq<Page>)
    requires after <= |history| && SlicesOf(history, after, offered) && pages <= offered
    ensures after + |Flatten(pages)| <= |history| && Flatten(pages) == history[after..after + |Flatten(pages)|]
  {
    SlicesOfPrefix(history, after, offered, |pages|);
    assert offered[..|pages|] == pages;
    SlicesAddUp(history, after, pages);
  }

  /** What was written to each stream is what was known before plus a reader's part of `events`. */
  ghost predicate Completes(history: seq<Event>, after: nat, events: seq<Event>) {
    && after <= |history| && events == history[after..]
    && forall stream :: Written(history, stream) == Written(history[..after], stream) + Output(events, stream)
  }

  lemma AllOfHistory(history: seq<Event>, after: nat, events: seq<Event>)
    requires after + |events| == |history| && events == history[after..after + |events|]
    ensures Completes(history, after, events)
  {
    assert history == history[..after] + events;
    forall stream ensures Written(history, stream) == Written(history[..after], stream) + Output(events, stream) {
      OutputOfConcat(history[..after], events, stream);
      OutputIsWritten(history, stream);
      OutputIsWritten(history[..after], stream);
    }
  }

  lemma {:induction false} NeverFails(history: seq<Event>, after: nat, offered: seq<Page>, pages: seq<Page>, events: seq<Event>)
    requires Numbered(history, 0) && SlicesOf(history, after, offered) && pages <= offered && events == Flatten(pages)
    ensures |pages| < |offered| ==> PageError(offered[|pages|], after + |events|) == None
  {
    assert offered[..|pages|] == pages;
    if |pages| < |offered| {
      SliceFits(history, after, offered, |pages|);
      MisfitMeaning(offered[|pages|].events, after + |events|);
    }
  }

  lemma {:induction false} LastIsFinal(history: seq<Event>, after: nat, was: Session, offered: seq<Page>, pages: seq<Page>)
    requires SlicesOf(history, after, offered) && (was.final.Some? ==> was.final.value == |history|) && pages <= offered
    ensures SessionAfter(was, pages).final.Some? ==> SessionAfter(was, pages).final.value == |history|
  {
    SlicesOfPrefix(history, after, offered, |pages|);
    assert offered[..|pages|] == pages;
    FinalNamesTheEnd(history, after, was, pages);
  }

  /** When the pages are slices of one history, a loop over them never fails,
      returns a stretch of that history, and, drained against a known final
      sequence, returns all of it; each reader gets its own projection. */
  lemma {:induction false} DrainsTheHistory(history: seq<Event>, after: nat, was: Session, offered: seq<Page>,
                         pages: seq<Page>, events: seq<Event>, end: End, last: nat, session: Session)
    requires Numbered(history, 0) && after <= |history| && SlicesOf(history, after, offered)
    requires was.final.Some? ==> was.final.value == |history|
    requires Collected(after, was, offered, pages, events, session)
    requires Ended(Run(after, was, offered), pages, events, end, last)
    ensures !end.Failed?
    ensures after + |events| <= |history| && events == history[after..after + |events|]
    ensures end == Drained && session.final.Some? ==> Completes(history, after, events)
  {
    NeverFails(history, after, offered, pages, events);
    StretchOfHistory(history, after, offered, pages);
    if end == Drained && session.final.Some? {
      LastIsFinal(history, after, was, offered, pages);
      AllOfHistory(history, after, events);
    }
  }

  /** From page number `from` on, the pages bring events as long as some are missing,
      and never take back that the session has ended and which event is its last. */
  ghost predicate MakesProgress(history: seq<Event>, after: nat, offered: seq<Page>, from: nat) {
    forall k :: from <= k < |offered| ==>
      && (after + |Flatten(offered[..k])| < |history| ==> offered[k].events != [])
      && (offered[k].session.Some? ==> offered[k].session.value == Session(true, Some(|history|)))
  }

  /** The exit and the last event are known once the first `from` pages are read. */
  ghost predicate ExitKnown(history: seq<Event>, was: Session, offered: seq<Page>, from: nat) {
    from <= |offered| && SessionAfter(was, offered[..from]) == Session(true, Some(|history|))
  }

  lemma TakeOneMore<T>(s: seq<T>, n: nat)
    requires 0 < n <= |s|
    ensures s[..n][..n - 1] == s[..n - 1] && s[..n][n - 1] == s[n - 1]
  {
  }

  lemma {:induction false} EndedSessionStays(history: seq<Event>, after: nat, was: Session, offered: seq<Page>, from: nat, n: nat)
    requires ExitKnown(history, was, offered, from) && from <= n <= |offered|
    requires MakesProgress(history, after, offered, from)
    ensures SessionAfter(was, offered[..n]) == Session(true, Some(|history|))
  {
    if n > from {
      EndedSessionStays(history, after, was, offered, from, n - 1);
      TakeOneMore(offered, n);
    }
  }

  /** A page after the exit that does not make the loop stop leaves events
      missing, and has brought one itself. */
  lemma {:induction false} MissingEventsShrink(history: seq<Event>, after: nat, was: Session, offered: seq<Page>, from: nat, n: nat)
    requires ExitKnown(history, was, offered, from) && from <= n <= |offered|
    requires MakesProgress(history, after, offered, from) && ReadsOn(after, was, offered, n)
    ensures |Flatten(offered[..n])| >= |Flatten(offered[..from])| + (n - from)
    ensures n > 0 ==> after + |Flatten(offered[..n])| < |history|
  {
    if n > from {
      MissingEventsShrink(history, after, was, offered, from, n - 1);
      TakeOneMore(offered, n);
      assert n == 1 ==> offered[..0] == [];
    }
    EndedSessionStays(history, after, was, offered, from, n);
    if n > 0 {
      assert !Stops(after, was, offered[..n]);
    }
  }

  /** How many pages a loop can read: those up to the exit, and one for each event
      that is missing then. A loop that knows the exit from the start and misses
      nothing still reads one page. */
  ghost function PagesNeeded(history: seq<Event>, after: nat, offered: seq<Page>, from: nat): int
    requires from <= |offered|
  {
    var missing := |history| - after - |Flatten(offered[..from])|;
    if from == 0 && missing == 0 then 1 else from + missing
  }

  /** Whenever the exit becomes known, before the loop starts or on the way: over
      pages that make progress from then on, the loop stops within one page per
      missing event, and ends drained unless its deadline comes first. */
  lemma {:induction false} ProgressDrains(history: seq<Event>, after: nat, was: Session, offered: seq<Page>, from: nat,
                                          pages: seq<Page>, events: seq<Event>, end: End, last: nat, session: Session)
    requires Numbered(history, 0) && after <= |history| && SlicesOf(history, after, offered)
    requires was.final.Some? ==> was.final.value == |history|
    requires ExitKnown(history, was, offered, from) && MakesProgress(history, after, offered, from)
    requires Collected(after, was, offered, pages, events, session)
    requires Ended(Run(after, was, offered), pages, events, end, last)
    ensures |pages| <= PagesNeeded(history, after, offered, from)
    ensures |offered| >= PagesNeeded(history, after, offered, from) ==> end == Drained || end == TimedOut
    ensures end == Drained && (|pages| >= from || session.final.Some?) ==> Completes(history, after, events)
  {
    DrainsTheHistory(history, after, was, offered, pages, events, end, last, session);
    StretchOfHistory(history, after, offered, offered[..from]);
    assert offered[..|pages|] == pages;
    var n := if end == Drained then |pages| - 1 else |pages|;
    if |pages| >= from {
      EndedSessionStays(history, after, was, offered, from, |pages|);
    }
    if n >= from {
      forall j | 0 < j <= n ensures !Stops(after, was, offered[..j]) {
        assert offered[..j] == pages[..j];
      }
      MissingEventsShrink(history, after, was, offered, from, n);
    }
  }
}
