/** One xDS connection: the receive goroutine, the stream loop with its double select, and the channels
    between them, as interleaved steps.  Every interleaving is a sequence of labels. */
module XdsStream {
  import opened Text

  type Request = nat

  type Event = nat

  /** Where the stream loop stands.  In Processing, second says which select took the request. */
  datatype LoopPc =
    | AwaitInit
    | FirstSelect
    | SecondSelect
    | Processing(request: Request, second: bool)
    | Pushing(event: Event)
    | CallingDone(event: Event, failed: bool)
    | Returned

  /** Where the receive loop stands; a request in hand may be dropped when the stream closes. */
  datatype ReceivePc = Reading | Holding(request: Request) | Exited(dropped: seq<Request>)

  datatype State = State(
    loop: LoopPc, receive: ReceivePc, reqChan: seq<Request>, errorChan: seq<string>, stopped: bool)

  const REQ_CAPACITY := 1
  const ERROR_CAPACITY := 1

  const INIT := State(AwaitInit, Reading, [], [], false)

  datatype Label =
    | Recv(request: Request)        // stream.Recv returned a request
    | RecvError(message: string)    // stream.Recv failed: the error is sent and the goroutine returns
    | Enter                         // the request in hand enters reqChan
    | StreamDone                    // the stream's context is done: the request in hand is dropped
    | Initialized                   // the proxy is initialized
    | Stop                          // the connection is stopped
    | TakeFirst                     // the first select takes a request
    | TakeSecond                    // the second select takes a request
    | SkipFirst                     // the first select finds nothing ready
    | SeeStop                       // a select sees the stop channel
    | ProcessEnd(ok: bool)          // Process returned
    | PushStart(event: Event)       // the second select takes a push event
    | PushEnd(ok: bool)             // pushConnection returned
    | Done(event: Event)            // the event's done function is called

  /** The state after a step, if the step is possible. */
  function Step(s: State, l: Label): Option<State> {
    match l
    case Recv(r) =>
      if s.receive.Reading? then Some(s.(receive := Holding(r))) else None
    case RecvError(e) =>
      if s.receive.Reading? && |s.errorChan| < ERROR_CAPACITY
      then Some(s.(receive := Exited([]), errorChan := s.errorChan + [e])) else None
    case Enter =>
      if s.receive.Holding? && |s.reqChan| < REQ_CAPACITY
      then Some(s.(receive := Reading, reqChan := s.reqChan + [s.receive.request])) else None
    case StreamDone =>
      if s.receive.Holding? then Some(s.(receive := Exited([s.receive.request]))) else None
    case Initialized =>
      if s.loop.AwaitInit? then Some(s.(loop := FirstSelect)) else None
    case Stop =>
      Some(s.(stopped := true))
    case TakeFirst =>
      if s.loop.FirstSelect? && s.reqChan != []
      then Some(s.(loop := Processing(s.reqChan[0], false), reqChan := s.reqChan[1..])) else None
    case TakeSecond =>
      if s.loop.SecondSelect? && s.reqChan != []
      then Some(s.(loop := Processing(s.reqChan[0], true), reqChan := s.reqChan[1..])) else None
    case SkipFirst =>
      if s.loop.FirstSelect? && s.reqChan == [] && !s.stopped then Some(s.(loop := SecondSelect)) else None
    case SeeStop =>
      if (s.loop.FirstSelect? || s.loop.SecondSelect?) && s.stopped then Some(s.(loop := Returned)) else None
    case ProcessEnd(ok) =>
      if !s.loop.Processing? then None
      else if !ok then Some(s.(loop := Returned))
      else Some(s.(loop := if s.loop.second then FirstSelect else SecondSelect))
    case PushStart(e) =>
      if s.loop.SecondSelect? then Some(s.(loop := Pushing(e))) else None
    case PushEnd(ok) =>
      if s.loop.Pushing? then Some(s.(loop := CallingDone(s.loop.event, !ok))) else None
    case Done(e) =>
      if s.loop.CallingDone? && s.loop.event == e
      then Some(s.(loop := if s.loop.failed then Returned else FirstSelect)) else None
  }

  /** The state a run of labels leads to, if every step of it is possible. */
  function Exec(s: State, run: seq<Label>): Option<State> {
    if run == [] then Some(s)
    else match Exec(s, run[..|run| - 1])
      case None => None
      case Some(t) => Step(t, run[|run| - 1])
  }

  // ---------- What a run did ----------

  function ReceivedBy(l: Label): seq<Request> {
    if l.Recv? then [l.request] else []
  }

  /** The request the step takes from the channel: its head, whatever the label says. */
  function TakenBy(s: State, l: Label): seq<Request> {
    if (l.TakeFirst? || l.TakeSecond?) && s.reqChan != [] then [s.reqChan[0]] else []
  }

  function Received(run: seq<Label>): seq<Request> {
    if run == [] then [] else Received(run[..|run| - 1]) + ReceivedBy(run[|run| - 1])
  }

  /** The requests taken for processing, in order, by replaying the run from the initial state. */
  function Taken(run: seq<Label>): seq<Request> {
    if run == [] then []
    else
      var before := Exec(INIT, run[..|run| - 1]);
      Taken(run[..|run| - 1]) + if before.Some? then TakenBy(before.value, run[|run| - 1]) else []
  }

  function PushTakenBy(l: Label): seq<Event> {
    if l.PushStart? then [l.event] else []
  }

  function DoneCalledBy(l: Label): seq<Event> {
    if l.Done? then [l.event] else []
  }

  function PushesTaken(run: seq<Label>): seq<Event> {
    if run == [] then [] else PushesTaken(run[..|run| - 1]) + PushTakenBy(run[|run| - 1])
  }

  function DonesCalled(run: seq<Label>): seq<Event> {
    if run == [] then [] else DonesCalled(run[..|run| - 1]) + DoneCalledBy(run[|run| - 1])
  }

  function InHand(receive: ReceivePc): seq<Request> {
    match receive
    case Reading => []
    case Holding(r) => [r]
    case Exited(dropped) => dropped
  }

  function Outstanding(loop: LoopPc): seq<Event> {
    match loop
    case Pushing(e) => [e]
    case CallingDone(e, _) => [e]
    case _ => []
  }

  predicate WithinCapacity(s: State) {
    && |s.reqChan| <= REQ_CAPACITY && |s.errorChan| <= ERROR_CAPACITY
    && (s.receive.Exited? ==> |s.receive.dropped| <= 1)
    && (!s.receive.Exited? ==> s.errorChan == [])
  }

  lemma StepWithinCapacity(s: State, l: Label)
    requires WithinCapacity(s) && Step(s, l).Some?
    ensures WithinCapacity(Step(s, l).value)
  {
  }

  lemma {:induction false} ReachableWithinCapacity(run: seq<Label>)
    requires Exec(INIT, run).Some?
    ensures WithinCapacity(Exec(INIT, run).value)
  {
    if run != [] {
      ReachableWithinCapacity(run[..|run| - 1]);
      StepWithinCapacity(Exec(INIT, run[..|run| - 1]).value, run[|run| - 1]);
    }
  }

  lemma StepConserves(s: State, l: Label)
    requires Step(s, l).Some?
    ensures var t := Step(s, l).value;
            s.reqChan + InHand(s.receive) + ReceivedBy(l) == TakenBy(s, l) + (t.reqChan + InHand(t.receive))
  {
    var t := Step(s, l).value;
    match l
    case Recv(r) => assert s.reqChan + [] + [r] == [] + (s.reqChan + [r]);
    case Enter =>
      var held := [s.receive.request];
      assert s.reqChan + held + [] == [] + (s.reqChan + held + []);
    case TakeFirst =>
      TakeConserves(s.reqChan, InHand(s.receive));
    case TakeSecond =>
      TakeConserves(s.reqChan, InHand(s.receive));
    case _ =>
      assert t.reqChan == s.reqChan && InHand(t.receive) == InHand(s.receive);
      var all := s.reqChan + InHand(s.receive);
      assert all + [] == [] + all;
  }

  lemma TakeConserves(waiting: seq<Request>, held: seq<Request>)
    requires waiting != []
    ensures waiting + held + [] == [waiting[0]] + (waiting[1..] + held)
  {
  }

  /** In every interleaving, the requests received so far are those taken for processing, then the one in
      the channel, then the one in the receiver's hand: nothing is lost, repeated or reordered. */
  lemma {:induction false} RequestsConserved(run: seq<Label>)
    requires Exec(INIT, run).Some?
    ensures var s := Exec(INIT, run).value;
            Received(run) == Taken(run) + (s.reqChan + InHand(s.receive))
  {
    if run != [] {
      var init, l := run[..|run| - 1], run[|run| - 1];
      RequestsConserved(init);
      var s, t := Exec(INIT, init).value, Exec(INIT, run).value;
      StepConserves(s, l);
      ConcatAssoc(Taken(init), s.reqChan + InHand(s.receive), ReceivedBy(l));
      ConcatAssoc(Taken(init), TakenBy(s, l), t.reqChan + InHand(t.receive));
    }
  }

  /** Processing order is a prefix of receive order, with at most two requests behind. */
  lemma BacklogAtMostTwo(run: seq<Label>)
    requires Exec(INIT, run).Some?
    ensures Taken(run) <= Received(run) && |Received(run)| <= |Taken(run)| + 2
  {
    RequestsConserved(run);
    ReachableWithinCapacity(run);
  }

  lemma StepSettles(s: State, l: Label)
    requires Step(s, l).Some?
    ensures Outstanding(s.loop) + PushTakenBy(l) == DoneCalledBy(l) + Outstanding(Step(s, l).value.loop)
  {
  }

  /** In every interleaving, the push events whose done was called are those taken, in order, except the one
      being pushed: each is called once, whether its push fails or not, and the loop never returns owing
      one. */
  lemma {:induction false} DoneCalledOncePerPush(run: seq<Label>)
    requires Exec(INIT, run).Some?
    ensures PushesTaken(run) == DonesCalled(run) + Outstanding(Exec(INIT, run).value.loop)
    ensures Exec(INIT, run).value.loop.Returned? ==> PushesTaken(run) == DonesCalled(run)
  {
    if run != [] {
      DoneCalledOncePerPush(run[..|run| - 1]);
      StepSettles(Exec(INIT, run[..|run| - 1]).value, run[|run| - 1]);
    }
  }

  // ---------- Requests are not starved by pushes ----------

  function Pushes(run: seq<Label>): nat {
    if run == [] then 0 else Pushes(run[..|run| - 1]) + if run[|run| - 1].PushStart? then 1 else 0
  }

  predicate TakesNone(run: seq<Label>) {
    forall l :: l in run ==> !l.TakeFirst? && !l.TakeSecond?
  }

  /** The loop is past the point where a push could be chosen before the waiting request. */
  predicate PushedOnce(loop: LoopPc) {
    !loop.SecondSelect? && !loop.Processing? && !loop.AwaitInit?
  }

  /** One step while a request waits: a push starts only from the second select, and from there on the
      loop stays out of it. */
  lemma WaitingStep(s: State, l: Label)
    requires s.reqChan != [] && !l.TakeFirst? && !l.TakeSecond? && Step(s, l).Some?
    ensures Step(s, l).value.reqChan != []
    ensures l.PushStart? ==> s.loop.SecondSelect?
    ensures l.PushStart? || PushedOnce(s.loop) ==> PushedOnce(Step(s, l).value.loop)
  {
  }

  /** While a request waits in the channel, the loop can start a push only from where it stood when the
      request entered: afterwards it is kept out of the second select. */
  lemma {:induction false} WaitingRequestBlocksPushes(s: State, run: seq<Label>)
    requires s.reqChan != [] && TakesNone(run) && Exec(s, run).Some?
    ensures Exec(s, run).value.reqChan != []
    ensures Pushes(run) <= 1
    ensures Pushes(run) == 1 ==> PushedOnce(Exec(s, run).value.loop)
  {
    if run != [] {
      var init := run[..|run| - 1];
      assert run == init + [run[|run| - 1]];
      WaitingRequestBlocksPushes(s, init);
      WaitingStep(Exec(s, init).value, run[|run| - 1]);
    }
  }

  lemma {:induction false} ExecAppend(s: State, a: seq<Label>, b: seq<Label>)
    ensures Exec(s, a + b) == match Exec(s, a) case None => None case Some(t) => Exec(t, b)
  {
    if b == [] {
      assert a + b == a;
    } else {
      ExecAppend(s, a, b[..|b| - 1]);
      assert (a + b)[..|a + b| - 1] == a + b[..|b| - 1];
    }
  }

  /** In every interleaving, at most one push starts between a request entering the channel and that
      request being taken: for any run, and any stretch of it that follows an Enter and takes nothing. */
  lemma AtMostOnePushBeforeTake(before: seq<Label>, waiting: seq<Label>)
    requires TakesNone(waiting) && Exec(INIT, before + [Enter] + waiting).Some?
    ensures Pushes(waiting) <= 1
  {
    var entered := before + [Enter];
    ExecAppend(INIT, entered, waiting);
    EnteredWaits(before);
    WaitingRequestBlocksPushes(Exec(INIT, entered).value, waiting);
  }

  lemma EnteredWaits(before: seq<Label>)
    requires Exec(INIT, before + [Enter]).Some?
    ensures Exec(INIT, before + [Enter]).value.reqChan != []
  {
    assert (before + [Enter])[..|before|] == before;
    assert Exec(INIT, before).Some?;
    ExecOne(INIT, before, Enter);
  }

  lemma ExecOne(s: State, run: seq<Label>, l: Label)
    requires Exec(s, run).Some?
    ensures Exec(s, run + [l]) == Step(Exec(s, run).value, l)
  {
    assert (run + [l])[..|run|] == run;
  }

  /** The bound is reached: a request that enters while the loop is in its second select can see one push. */
  lemma OnePushCanOvertake(r: Request, e: Event)
    ensures Exec(INIT, [] + [Initialized] + [SkipFirst] + [Recv(r)] + [Enter] + [PushStart(e)])
            == Some(State(Pushing(e), Reading, [r], [], false))
  {
    assert [] + [r] == [r];
    ExecOne(INIT, [], Initialized);
    ExecOne(INIT, [] + [Initialized], SkipFirst);
    ExecOne(INIT, [] + [Initialized] + [SkipFirst], Recv(r));
    ExecOne(INIT, [] + [Initialized] + [SkipFirst] + [Recv(r)], Enter);
    ExecOne(INIT, [] + [Initialized] + [SkipFirst] + [Recv(r)] + [Enter], PushStart(e));
  }
}
