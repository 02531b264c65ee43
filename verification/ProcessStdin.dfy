/** The buffered standard input of a remote process
    (src/ucloud_sandboxes_sdk/client.py). */
module ProcessStdin {
  import opened Prelude
  import opened Runs

  type Bytes = seq<bv8>

  // Who holds the lock while a batch is on its way: some caller of `drain`, or
  // the task that `close` created.
  datatype Holder = Nobody | Drainer | Closer

  // `Flushing` until the close task's own drain is over, then `Flushed` until
  // end-of-input is sent.
  datatype Closing = Open | Flushing | Flushed | Sent | Failed

  // What became of a batch whose send is over and was not put back.
  datatype Piece = Arrived(data: Bytes) | Lost(data: Bytes)

  // How a send ends. `except Exception` does not see a cancellation; the server may
  // have received a cancelled batch all the same.
  datatype SendEnd = Returns | Raises | Cancelled(arrived: bool)

  // `accepted` is every byte that write took, `pieces` what became of the batches
  // sent so far, in order; `batch` is what the lock holder is sending.
  datatype State = State(
    buffer: Bytes, batch: Bytes, holder: Holder, closing: Closing,
    accepted: Bytes, pieces: seq<Piece>)

  datatype Step =
    | Write(data: Bytes)
    | Lock(who: Holder)
    | EndSend(how: SendEnd)
    | Close
    | SendEof(ok: bool)

  const START := State([], [], Nobody, Open, [], [])

  function Over(batch: Bytes, arrived: bool): Piece { if arrived then Arrived(batch) else Lost(batch) }

  /** The bytes of all batches, delivered or lost. */
  function Content(pieces: seq<Piece>): Bytes {
    if pieces == [] then [] else Content(pieces[..|pieces| - 1]) + pieces[|pieces| - 1].data
  }

  /** The bytes that the server received, in order. */
  function Delivered(pieces: seq<Piece>): Bytes {
    if pieces == [] then []
    else
      var last := pieces[|pieces| - 1];
      Delivered(pieces[..|pieces| - 1]) + (if last.Arrived? then last.data else [])
  }

  ghost predicate Enabled(s: State, step: Step) {
    match step
    case Write(_) => s.closing == Open
    case Lock(who) => s.holder == Nobody && who != Nobody && (who == Closer ==> s.closing == Flushing)
    case EndSend(_) => s.holder != Nobody
    case Close => true
    case SendEof(_) => s.closing == Flushed
  }

  ghost function Apply(s: State, step: Step): State
    requires Enabled(s, step)
  {
    match step
    case Write(data) => s.(buffer := s.buffer + data, accepted := s.accepted + data)
    case Lock(who) =>
      if s.buffer != [] then s.(batch := s.buffer, buffer := [], holder := who)
      else if who == Closer then s.(closing := Flushed)
      else s
    case EndSend(how) =>
      var closing := if s.holder != Closer then s.closing else if how == Returns then Flushed else Failed;
      var idle := s.(batch := [], holder := Nobody, closing := closing);
      (match how
       case Returns => idle.(pieces := s.pieces + [Over(s.batch, true)])
       case Raises => idle.(buffer := s.batch + s.buffer)
       case Cancelled(arrived) => idle.(pieces := s.pieces + [Over(s.batch, arrived)]))
    case Close => if s.closing == Open then s.(closing := Flushing) else s
    case SendEof(ok) => s.(closing := if ok then Sent else Failed)
  }

  /** The adapter's own fields, changed by the stretches of its coroutines that
      run without an await. */
  class AsyncProcessStdin {
    var buffer: Bytes
    var batch: Bytes
    var holder: Holder
    var closing: Closing
    ghost var accepted: Bytes
    ghost var pieces: seq<Piece>

    ghost function Model(): State
      reads this
    {
      State(buffer, batch, holder, closing, accepted, pieces)
    }

    constructor ()
      ensures Model() == START
    {
      buffer, batch, holder, closing, accepted, pieces := [], [], Nobody, Open, [], [];
    }

    method Write(data: Bytes) returns (refused: bool)
      modifies this
      ensures refused <==> !Enabled(old(Model()), Step.Write(data))
      ensures Model() == if refused then old(Model()) else Apply(old(Model()), Step.Write(data))
    {
      refused := closing != Open;
      if !refused {
        buffer := buffer + data;
        accepted := accepted + data;
      }
    }

    /** `drain` once it has the lock, up to the request: `sends` says that it makes one. */
    method BeginDrain(who: Holder) returns (sends: bool)
      requires Enabled(Model(), Lock(who))
      modifies this
      ensures Model() == Apply(old(Model()), Lock(who)) && (sends <==> old(buffer) != [])
    {
      sends := buffer != [];
      if sends {
        batch, buffer, holder := buffer, [], who;
      } else if who == Closer {
        closing := Flushed;
      }
    }

    /** `drain` after its request: only a failed one puts its batch back. */
    method EndDrain(how: SendEnd)
      requires Enabled(Model(), EndSend(how))
      modifies this
      ensures Model() == Apply(old(Model()), EndSend(how))
    {
      match how {
        case Returns => pieces := pieces + [Arrived(batch)];
        case Raises => buffer := batch + buffer;
        case Cancelled(arrived) => pieces := pieces + [Over(batch, arrived)];
      }
      if holder == Closer {
        closing := if how == Returns then Flushed else Failed;
      }
      batch, holder := [], Nobody;
    }

    method Close()
      modifies this
      ensures Model() == Apply(old(Model()), Step.Close)
    {
      if closing == Open {
        closing := Flushing;
      }
    }
  }

  ghost predicate Init(s: State) { s == START }

  ghost predicate Next(s: State, s': State) {
    exists step :: Enabled(s, step) && s' == Apply(s, step)
  }

  ghost predicate Inv(s: State) {
    && Content(s.pieces) + s.batch + s.buffer == s.accepted
    && (s.holder == Nobody <==> s.batch == [])
    && (s.holder == Closer ==> s.closing == Flushing && s.buffer == [])
    && (s.closing == Flushed || s.closing == Sent ==> s.buffer == [] && s.batch == [])
    && (forall p :: p in s.pieces ==> p.data != [])
  }

  lemma {:induction false} ContentOfMore(pieces: seq<Piece>, p: Piece)
    ensures Content(pieces + [p]) == Content(pieces) + p.data
    ensures Delivered(pieces + [p]) == Delivered(pieces) + (if p.Arrived? then p.data else [])
  {
    assert (pieces + [p])[..|pieces|] == pieces;
  }

  /** A batch that is over leaves the content where it was, or goes back in front of the buffer. */
  lemma BatchIsOver(content: Bytes, batch: Bytes, buffer: Bytes)
    ensures (content + batch) + [] + buffer == content + batch + buffer
    ensures content + [] + (batch + buffer) == content + batch + buffer
  {
    assert (content + batch) + [] == content + batch && content + [] == content;
    Associative(content, batch, buffer);
  }

  lemma EndSendKeepsInv(s: State, how: SendEnd)
    requires Inv(s) && s.holder != Nobody
    ensures Inv(Apply(s, EndSend(how)))
  {
    BatchIsOver(Content(s.pieces), s.batch, s.buffer);
    if how != Raises {
      var piece := Over(s.batch, how == Returns || how.arrived);
      ContentOfMore(s.pieces, piece);
      assert Apply(s, EndSend(how)).pieces == s.pieces + [piece];
    }
  }

  lemma StepKeepsInv(s: State, step: Step)
    requires Inv(s) && Enabled(s, step)
    ensures Inv(Apply(s, step))
  {
    var content := Content(s.pieces);
    match step
    case Write(data) => Associative(content + s.batch, s.buffer, data);
    case Lock(who) =>
      assert content + [] == content && content + s.buffer + [] == content + s.buffer;
    case EndSend(how) => EndSendKeepsInv(s, how);
    case Close =>
    case SendEof(ok) =>
  }

  lemma AlwaysInv(trace: seq<State>)
    requires IsRun(trace, Init, Next)
    ensures forall i :: 0 <= i < |trace| ==> Inv(trace[i])
  {
    forall s, s' | Inv(s) && Next(s, s') ensures Inv(s') {
      var step :| Enabled(s, step) && s' == Apply(s, step);
      StepKeepsInv(s, step);
    }
    InvariantOfRun(trace, Init, Next, Inv);
  }

  ghost predicate NoneLost(pieces: seq<Piece>) { forall p :: p in pieces ==> p.Arrived? }

  /** The delivered bytes are the content, exactly when no piece with bytes was lost. */
  lemma {:induction false} LossShortens(pieces: seq<Piece>)
    requires forall p :: p in pieces ==> p.data != []
    ensures |Delivered(pieces)| <= |Content(pieces)|
    ensures |Delivered(pieces)| == |Content(pieces)| <==> NoneLost(pieces)
    ensures NoneLost(pieces) ==> Delivered(pieces) == Content(pieces)
  {
    if pieces != [] {
      var n := |pieces| - 1;
      LossShortens(pieces[..n]);
      assert pieces == pieces[..n] + [pieces[n]];
      assert NoneLost(pieces) <==> NoneLost(pieces[..n]) && pieces[n].Arrived?;
    }
  }

  /** Over every run, with or without failed and cancelled sends: the batches sent,
      the one on its way and the buffer are every byte written, in order. The
      delivered bytes, that batch and the buffer are, exactly when no batch was lost. */
  lemma StdinRuns(trace: seq<State>, i: nat)
    requires IsRun(trace, Init, Next) && i < |trace|
    ensures var s := trace[i];
      && Content(s.pieces) + s.batch + s.buffer == s.accepted
      && (Delivered(s.pieces) + s.batch + s.buffer == s.accepted <==> NoneLost(s.pieces))
  {
    AlwaysInv(trace);
    var s := trace[i];
    assert Inv(s);
    LossShortens(s.pieces);
    assert |s.accepted| == |Content(s.pieces)| + |s.batch| + |s.buffer|;
    assert |Delivered(s.pieces) + s.batch + s.buffer| == |Delivered(s.pieces)| + |s.batch| + |s.buffer|;
  }

  /** End-of-input goes out only when nothing is left to send; so everything
      accepted was then delivered, exactly when no batch was lost. */
  lemma EndOfInputIsLast(trace: seq<State>, i: nat)
    requires IsRun(trace, Init, Next) && i < |trace|
    requires trace[i].closing == Flushed || trace[i].closing == Sent
    ensures trace[i].batch == [] && trace[i].buffer == []
    ensures Delivered(trace[i].pieces) == trace[i].accepted <==> NoneLost(trace[i].pieces)
  {
    AlwaysInv(trace);
    var s := trace[i];
    assert Inv(s);
    LossShortens(s.pieces);
    assert Content(s.pieces) + [] + [] == Content(s.pieces);
  }

  /** A batch is lost by a send that is cancelled before it arrives, and by nothing else. */
  lemma OnlyCancellationLoses(s: State, step: Step)
    requires Enabled(s, step)
    ensures NoneLost(Apply(s, step).pieces) <==> NoneLost(s.pieces) && step != EndSend(Cancelled(false))
  {
    if step.EndSend? && step.how != Raises {
      var piece := Over(s.batch, step.how == Returns || step.how.arrived);
      assert Apply(s, step).pieces == s.pieces + [piece];
      assert piece in Apply(s, step).pieces;
      assert forall p :: p in s.pieces ==> p in Apply(s, step).pieces;
    }
  }

  // The shortest run that loses bytes: write, drain, and cancel the drain's request.
  function CancelledRun(data: Bytes): seq<State> {
    [START, State(data, [], Nobody, Open, data, []), State([], data, Drainer, Open, data, []),
     State([], [], Nobody, Open, data, [Lost(data)])]
  }

  lemma CancelledSendLosesItsBatch(data: Bytes)
    requires data != []
    ensures var trace := CancelledRun(data);
      && IsRun(trace, Init, Next)
      && trace[3].accepted == data && Delivered(trace[3].pieces) + trace[3].batch + trace[3].buffer == []
  {
    var trace := CancelledRun(data);
    assert [] + data == data;
    assert Apply(trace[0], Step.Write(data)) == trace[1];
    assert Apply(trace[1], Lock(Drainer)) == trace[2];
    assert [] + [Lost(data)] == [Lost(data)];
    assert Apply(trace[2], EndSend(Cancelled(false))) == trace[3];
    forall i | 0 < i < 4 ensures Next(trace[i - 1], trace[i]) {
      var step := if i == 1 then Step.Write(data) else if i == 2 then Lock(Drainer) else EndSend(Cancelled(false));
      assert Enabled(trace[i - 1], step) && trace[i] == Apply(trace[i - 1], step);
    }
    ContentOfMore([], Lost(data));
  }

  // ----- what a process is sent -----

  lemma StepNext(s: State, step: Step, s': State)
    requires Enabled(s, step) && Apply(s, step) == s'
    ensures Next(s, s')
  {
  }

  /** Closing an input that nobody is sending from delivers what is buffered as one
      last batch, and then end-of-input. */
  lemma CloseSendsTheRest(s: State)
    requires s.holder == Nobody && s.closing == Open && s.batch == []
    ensures var end := s.(closing := Sent, buffer := [], pieces := if s.buffer == [] then s.pieces else s.pieces + [Arrived(s.buffer)]);
      Reaches(s, end, Next)
  {
    var closing := s.(closing := Flushing);
    StepNext(s, Step.Close, closing);
    var flushed := s.(closing := Flushed, buffer := [], pieces := if s.buffer == [] then s.pieces else s.pieces + [Arrived(s.buffer)]);
    StepNext(flushed, SendEof(true), flushed.(closing := Sent));
    ReachesItself(flushed.(closing := Sent), Next);
    ReachesNext(flushed, flushed.(closing := Sent), flushed.(closing := Sent), Next);
    if s.buffer == [] {
      StepNext(closing, Lock(Closer), flushed);
      ReachesNext(closing, flushed, flushed.(closing := Sent), Next);
      ReachesNext(s, closing, flushed.(closing := Sent), Next);
    } else {
      var sending := closing.(batch := s.buffer, buffer := [], holder := Closer);
      StepNext(closing, Lock(Closer), sending);
      StepNext(sending, EndSend(Returns), flushed);
      ReachesNext(sending, flushed, flushed.(closing := Sent), Next);
      ReachesNext(closing, sending, flushed.(closing := Sent), Next);
      ReachesNext(s, closing, flushed.(closing := Sent), Next);
    }
  }

  /** A batch whose send failed is sent again, with what was written meanwhile behind it. */
  lemma FailedBatchIsRepeated(s: State)
    requires s.holder == Drainer && s.batch != []
    ensures var end := s.(batch := [], buffer := [], holder := Nobody, pieces := s.pieces + [Arrived(s.batch + s.buffer)]);
      Reaches(s, end, Next)
  {
    var all := s.batch + s.buffer;
    var back := s.(batch := [], buffer := all, holder := Nobody);
    StepNext(s, EndSend(Raises), back);
    var again := s.(batch := all, buffer := [], holder := Drainer);
    StepNext(back, Lock(Drainer), again);
    var end := s.(batch := [], buffer := [], holder := Nobody, pieces := s.pieces + [Arrived(all)]);
    StepNext(again, EndSend(Returns), end);
    ReachesItself(end, Next);
    ReachesNext(again, end, end, Next);
    ReachesNext(back, again, end, Next);
    ReachesNext(s, back, end, Next);
  }

  /** Closing fails when its own send does not return, or the end-of-input is refused. */
  lemma CloseFails(s: State, how: SendEnd)
    ensures s.holder == Closer && how != Returns ==> Apply(s, EndSend(how)).closing == Failed
    ensures s.closing == Flushed ==> Apply(s, SendEof(false)).closing == Failed
    ensures s.holder == Drainer ==> Apply(s, EndSend(how)).closing == s.closing
  {
  }
}
