/** When the stream loop goes on and why it ends.  Every condition here is on the labels of the run: what
    happened on the connection, not where the loop stands. */
module XdsProgress {
  import opened XdsStream
  import opened Text

  // ---------- Why the loop ends ----------

  /** The run holds a stop that was seen, a request that failed, or a failed push whose done was called. */
  ghost predicate Ended(run: seq<Label>) {
    || SeeStop in run || ProcessEnd(false) in run
    || exists j :: 0 <= j < |run| && run[j].Done? && PushEnd(false) in run[..j]
  }

  lemma EndedNext(run: seq<Label>, l: Label)
    ensures Ended(run + [l])
            <==> Ended(run) || l == SeeStop || l == ProcessEnd(false) || (l.Done? && PushEnd(false) in run)
  {
    var next := run + [l];
    assert forall j :: 0 <= j <= |run| ==> next[..j] == run[..j];
    assert run[..|run|] == run && next[|run|] == l;
    if l.Done? && PushEnd(false) in run {
      assert next[|run|].Done? && PushEnd(false) in next[..|run|];
    }
    if j :| 0 <= j < |run| && run[j].Done? && PushEnd(false) in run[..j] {
      assert next[j].Done? && PushEnd(false) in next[..j];
    }
  }

  /** What the loop's place says about the run. */
  ghost predicate Explained(s: State, run: seq<Label>) {
    && (s.loop.Returned? <==> Ended(run))
    && (s.loop.CallingDone? && s.loop.failed <==> PushEnd(false) in run && !Ended(run))
    && (s.stopped <==> Stop in run)
    && (SeeStop in run ==> Stop in run)
    && (s.receive.Exited? && s.receive.dropped != [] <==> StreamDone in run)
  }

  lemma ExplainedNext(s: State, run: seq<Label>, l: Label)
    requires Explained(s, run) && Step(s, l).Some?
    ensures Explained(Step(s, l).value, run + [l])
  {
    EndedNext(run, l);
    assert forall m :: m in run + [l] <==> m in run || m == l;
  }

  lemma {:induction false} ReachableExplained(run: seq<Label>)
    requires Exec(INIT, run).Some?
    ensures Explained(Exec(INIT, run).value, run)
  {
    if run != [] {
      var init, l := run[..|run| - 1], run[|run| - 1];
      assert run == init + [l];
      ReachableExplained(init);
      ExplainedNext(Exec(INIT, init).value, init, l);
    }
  }

  /** In every interleaving, the loop has returned exactly when it saw a stop, which takes a stopped
      connection, or a request failed, or a push failed and its done was called. */
  lemma ReturnedIff(run: seq<Label>)
    requires Exec(INIT, run).Some?
    ensures Exec(INIT, run).value.loop.Returned?
            <==> || SeeStop in run || ProcessEnd(false) in run
                 || exists j :: 0 <= j < |run| && run[j].Done? && PushEnd(false) in run[..j]
    ensures SeeStop in run ==> Stop in run
  {
    ReachableExplained(run);
  }

  // ---------- The two selects take turns ----------

  /** The choices the selects made: true for one of the first, false for one of the second. */
  function ChosenBy(l: Label): seq<bool> {
    if l.TakeFirst? || l.SkipFirst? then [true]
    else if l.TakeSecond? || l.PushStart? then [false]
    else []
  }

  function Choices(run: seq<Label>): seq<bool> {
    if run == [] then [] else Choices(run[..|run| - 1]) + ChosenBy(run[|run| - 1])
  }

  /** The choice that comes next. */
  function Turn(loop: LoopPc): Option<bool> {
    match loop
    case AwaitInit => Some(true)
    case FirstSelect => Some(true)
    case SecondSelect => Some(false)
    case Processing(_, second) => Some(second)
    case Pushing(_) => Some(true)
    case CallingDone(_, _) => Some(true)
    case Returned => None
  }

  lemma TurnStep(s: State, l: Label)
    requires Step(s, l).Some?
    ensures s.loop.Returned? ==> ChosenBy(l) == [] && Step(s, l).value.loop.Returned?
    ensures ChosenBy(l) == [] && !Step(s, l).value.loop.Returned? ==> Turn(Step(s, l).value.loop) == Turn(s.loop)
    ensures ChosenBy(l) != [] ==>
      |ChosenBy(l)| == 1 && Turn(s.loop) == Some(ChosenBy(l)[0]) && Turn(Step(s, l).value.loop) == Some(!ChosenBy(l)[0])
  {
  }

  predicate Alternate(choices: seq<bool>) {
    forall i :: 0 <= i < |choices| ==> (choices[i] <==> i % 2 == 0)
  }

  lemma AlternateNext(choices: seq<bool>, first: bool)
    requires Alternate(choices) && first == (|choices| % 2 == 0)
    ensures Alternate(choices + [first])
  {
  }

  /** The next choice is the one that keeps the alternation. */
  predicate InTurn(loop: LoopPc, choices: seq<bool>) {
    Alternate(choices) && (!loop.Returned? ==> Turn(loop) == Some(|choices| % 2 == 0))
  }

  lemma InTurnNext(s: State, l: Label, choices: seq<bool>)
    requires Step(s, l).Some? && InTurn(s.loop, choices)
    ensures InTurn(Step(s, l).value.loop, choices + ChosenBy(l))
  {
    TurnStep(s, l);
    if ChosenBy(l) == [] {
      assert choices + [] == choices;
    } else {
      assert ChosenBy(l) == [ChosenBy(l)[0]];
      AlternateNext(choices, ChosenBy(l)[0]);
    }
  }

  /** In every interleaving, the choices alternate, a first select before every second one: a request taken
      by the second select or a push is always followed by a look at the requests alone. */
  lemma {:induction false} SelectsAlternate(run: seq<Label>)
    requires Exec(INIT, run).Some?
    ensures forall i :: 0 <= i < |Choices(run)| ==> (Choices(run)[i] <==> i % 2 == 0)
    ensures InTurn(Exec(INIT, run).value.loop, Choices(run))
  {
    if run != [] {
      SelectsAlternate(run[..|run| - 1]);
      InTurnNext(Exec(INIT, run[..|run| - 1]).value, run[|run| - 1], Choices(run[..|run| - 1]));
    }
  }

  // ---------- The loop goes on ----------

  /** Nothing that ends the loop, or is bound to end it, has happened. */
  predicate Alive(loop: LoopPc) {
    !loop.Returned? && !(loop.CallingDone? && loop.failed)
  }

  predicate AtSelect(loop: LoopPc) {
    loop.FirstSelect? || loop.SecondSelect?
  }

  predicate NoRecv(run: seq<Label>) {
    forall l :: l in run ==> !l.Recv?
  }

  function Backlog(s: State): nat {
    |s.reqChan| + |InHand(s.receive)|
  }

  /** Finishes what the loop is at, without a failure. */
  function Finish(loop: LoopPc): seq<Label> {
    match loop
    case AwaitInit => [Initialized]
    case Processing(_, _) => [ProcessEnd(true)]
    case Pushing(e) => [PushEnd(true), Done(e)]
    case CallingDone(e, _) => [Done(e)]
    case _ => []
  }

  lemma ExecTwo(s: State, a: Label, b: Label)
    ensures Exec(s, [a]) == Step(s, a)
    ensures Step(s, a).Some? ==> Exec(s, [a, b]) == Step(Step(s, a).value, b)
  {
    ExecOne(s, [], a);
    assert [] + [a] == [a] && [a] + [b] == [a, b];
    if Step(s, a).Some? {
      ExecOne(s, [a], b);
    }
  }

  lemma FinishReachesSelect(s: State)
    requires Alive(s.loop)
    ensures NoRecv(Finish(s.loop)) && Exec(s, Finish(s.loop)).Some?
    ensures var t := Exec(s, Finish(s.loop)).value; AtSelect(t.loop) && t == s.(loop := t.loop)
  {
    match s.loop
    case AwaitInit => ExecTwo(s, Initialized, Initialized);
    case Processing(_, _) => ExecTwo(s, ProcessEnd(true), Initialized);
    case Pushing(e) => ExecTwo(s, PushEnd(true), Done(e));
    case CallingDone(e, _) => ExecTwo(s, Done(e), Initialized);
    case _ =>
  }

  /** Some steps lead from s to t and receive nothing. */
  ghost predicate LeadsTo(s: State, t: State) {
    exists more :: NoRecv(more) && Exec(s, more) == Some(t)
  }

  lemma LeadsSelf(s: State)
    ensures LeadsTo(s, s)
  {
    assert NoRecv([]) && Exec(s, []) == Some(s);
  }

  lemma LeadsFinish(s: State) returns (t: State)
    requires Alive(s.loop)
    ensures LeadsTo(s, t) && AtSelect(t.loop) && t == s.(loop := t.loop)
  {
    FinishReachesSelect(s);
    t := Exec(s, Finish(s.loop)).value;
  }

  lemma LeadsStep(s: State, t: State, l: Label)
    requires LeadsTo(s, t) && !l.Recv? && Step(t, l).Some?
    ensures LeadsTo(s, Step(t, l).value)
  {
    var more :| NoRecv(more) && Exec(s, more) == Some(t);
    ExecOne(s, more, l);
    assert NoRecv(more + [l]);
  }

  lemma LeadsOn(s: State, t: State, u: State)
    requires LeadsTo(s, t) && LeadsTo(t, u)
    ensures LeadsTo(s, u)
  {
    var a :| NoRecv(a) && Exec(s, a) == Some(t);
    var b :| NoRecv(b) && Exec(t, b) == Some(u);
    ExecAppend(s, a, b);
    assert NoRecv(a + b);
  }

  /** The next request is taken, from the channel or from the receiver's hand through it. */
  lemma TakesNext(s: State) returns (t: State)
    requires Alive(s.loop) && Backlog(s) > 0
    requires s.receive.Exited? ==> s.receive.dropped == []
    ensures LeadsTo(s, t) && t.loop.Processing? && Backlog(t) == Backlog(s) - 1
    ensures t.receive.Exited? ==> t.receive.dropped == []
    ensures (t.receive.Exited? <==> s.receive.Exited?) && t.errorChan == s.errorChan
  {
    t := LeadsFinish(s);
    if t.reqChan == [] {
      LeadsStep(s, t, Enter);
      t := Step(t, Enter).value;
    }
    var take := if t.loop.FirstSelect? then TakeFirst else TakeSecond;
    LeadsStep(s, t, take);
    t := Step(t, take).value;
  }

  lemma {:induction false} TakesAll(s: State) returns (t: State)
    requires Alive(s.loop)
    requires s.receive.Exited? ==> s.receive.dropped == []
    ensures LeadsTo(s, t) && Alive(t.loop) && Backlog(t) == 0
    ensures (t.receive.Exited? <==> s.receive.Exited?) && t.errorChan == s.errorChan
    decreases Backlog(s)
  {
    if Backlog(s) == 0 {
      t := s;
      LeadsSelf(s);
    } else {
      var u := TakesNext(s);
      t := TakesAll(u);
      LeadsOn(s, u, t);
    }
  }

  /** No more requests are taken once the loop is not alive. */
  lemma {:induction false} EndedTakesNothing(run: seq<Label>, more: seq<Label>)
    requires Exec(INIT, run).Some? && !Alive(Exec(INIT, run).value.loop)
    requires NoRecv(more) && Exec(INIT, run + more).Some?
    ensures !Alive(Exec(INIT, run + more).value.loop)
    ensures Taken(run + more) == Taken(run) && Received(run + more) == Received(run)
  {
    if more == [] {
      assert run + more == run;
    } else {
      var init, l := more[..|more| - 1], more[|more| - 1];
      assert run + more == run + init + [l] && more == init + [l];
      assert forall m :: m in init ==> m in more;
      TakenNext(run + init, l);
      EndedTakesNothing(run, init);
      EndedStep(Exec(INIT, run + init).value, l);
    }
  }

  lemma TakenNext(run: seq<Label>, l: Label)
    requires Exec(INIT, run + [l]).Some?
    ensures Exec(INIT, run).Some? && Exec(INIT, run + [l]) == Step(Exec(INIT, run).value, l)
    ensures Taken(run + [l]) == Taken(run) + TakenBy(Exec(INIT, run).value, l)
    ensures Received(run + [l]) == Received(run) + ReceivedBy(l)
  {
    assert (run + [l])[..|run|] == run;
  }

  lemma EndedStep(s: State, l: Label)
    requires !Alive(s.loop) && !l.Recv? && Step(s, l).Some?
    ensures !Alive(Step(s, l).value.loop) && TakenBy(s, l) == [] && ReceivedBy(l) == []
  {
  }

  /** The stream can still catch up: in some continuation without a new request, every request received is
      taken for processing. */
  ghost predicate CanCatchUp(run: seq<Label>) {
    exists more :: NoRecv(more) && Exec(INIT, run + more).Some? && Taken(run + more) == Received(run + more)
  }

  /** What is lost or ends the loop: the stream closed with a request in hand, a stop was seen, or a request
      or a push failed. */
  predicate Broken(run: seq<Label>) {
    StreamDone in run || SeeStop in run || ProcessEnd(false) in run || PushEnd(false) in run
  }

  lemma BrokenIff(run: seq<Label>)
    requires Exec(INIT, run).Some?
    ensures var s := Exec(INIT, run).value;
            Broken(run) <==> !Alive(s.loop) || (s.receive.Exited? && s.receive.dropped != [])
  {
    ReachableExplained(run);
    if Ended(run) && SeeStop !in run && ProcessEnd(false) !in run {
      var j :| 0 <= j < |run| && run[j].Done? && PushEnd(false) in run[..j];
      assert PushEnd(false) in run;
    }
  }

  lemma UnbrokenCatchesUp(run: seq<Label>)
    requires Exec(INIT, run).Some? && !Broken(run)
    ensures CanCatchUp(run)
  {
    BrokenIff(run);
    var s := Exec(INIT, run).value;
    var t := TakesAll(s);
    var more :| NoRecv(more) && Exec(s, more) == Some(t);
    ExecAppend(INIT, run, more);
    BehindMeansBacklog(run + more);
  }

  lemma BrokenStaysBehind(run: seq<Label>, more: seq<Label>)
    requires Exec(INIT, run).Some? && Broken(run) && Taken(run) != Received(run)
    requires NoRecv(more) && Exec(INIT, run + more).Some?
    ensures Taken(run + more) != Received(run + more)
  {
    if StreamDone in run {
      assert StreamDone in run + more;
      ReachableExplained(run + more);
      RequestsConserved(run + more);
    } else {
      ReachableExplained(run);
      BrokenIff(run);
      EndedTakesNothing(run, more);
    }
  }

  /** In every reachable state, the stream is caught up or still can be exactly when it was not broken
      while behind. */
  lemma CatchesUpIff(run: seq<Label>)
    requires Exec(INIT, run).Some?
    ensures (exists more :: NoRecv(more) && Exec(INIT, run + more).Some? && Taken(run + more) == Received(run + more))
            <==> Taken(run) == Received(run)
                 || (StreamDone !in run && SeeStop !in run && ProcessEnd(false) !in run && PushEnd(false) !in run)
  {
    if Taken(run) == Received(run) {
      assert run + [] == run && NoRecv([]);
    } else if !Broken(run) {
      UnbrokenCatchesUp(run);
    } else {
      forall more | NoRecv(more) && Exec(INIT, run + more).Some?
        ensures Taken(run + more) != Received(run + more)
      {
        BrokenStaysBehind(run, more);
      }
    }
  }

  lemma {:induction false} NoPushTaken(run: seq<Label>)
    requires forall l :: l in run ==> !l.PushStart?
    ensures PushesTaken(run) == []
  {
    if run != [] {
      NoPushTaken(run[..|run| - 1]);
    }
  }

  /** Pushes go on too: on a stream neither broken nor stopped, any push can be the next to start, after at
      most the request in the channel. */
  lemma PushCanStart(run: seq<Label>, e: Event) returns (more: seq<Label>)
    requires Exec(INIT, run).Some? && !Broken(run) && Stop !in run
    ensures NoRecv(more) && Exec(INIT, run + more + [PushStart(e)]).Some? && PushesTaken(more) == []
  {
    ReachableExplained(run);
    BrokenIff(run);
    var s := Exec(INIT, run).value;
    more := SecondSelectComes(s);
    ExecAppend(INIT, run, more);
    ExecOne(INIT, run + more, PushStart(e));
    NoPushTaken(more);
  }

  lemma SecondSelectComes(s: State) returns (more: seq<Label>)
    requires Alive(s.loop) && !s.stopped
    ensures Exec(s, more).Some? && Exec(s, more).value.loop.SecondSelect?
    ensures forall l :: l in more ==> !l.Recv? && !l.PushStart?
  {
    var finish := Finish(s.loop);
    FinishReachesSelect(s);
    var first := SecondSelectReached(Exec(s, finish).value);
    ExecAppend(s, finish, first);
    more := finish + first;
  }

  lemma SecondSelectReached(s: State) returns (more: seq<Label>)
    requires AtSelect(s.loop) && !s.stopped
    ensures Exec(s, more).Some? && Exec(s, more).value.loop.SecondSelect?
    ensures forall l :: l in more ==> l in [SkipFirst, TakeFirst, ProcessEnd(true)]
  {
    if s.loop.SecondSelect? {
      more := [];
    } else if s.reqChan == [] {
      more := [SkipFirst];
      ExecTwo(s, SkipFirst, SkipFirst);
    } else {
      more := [TakeFirst, ProcessEnd(true)];
      ExecTwo(s, TakeFirst, ProcessEnd(true));
    }
  }

  // ---------- Every end can come ----------

  lemma BehindMeansBacklog(run: seq<Label>)
    requires Exec(INIT, run).Some?
    ensures Backlog(Exec(INIT, run).value) == 0 <==> Taken(run) == Received(run)
  {
    var s := Exec(INIT, run).value;
    RequestsConserved(run);
    assert |Received(run)| == |Taken(run)| + Backlog(s);
    assert Taken(run) + ([] + []) == Taken(run);
  }

  /** While a request is behind, the next one taken can fail, and that ends the stream. */
  lemma RequestCanFail(run: seq<Label>) returns (more: seq<Label>)
    requires Exec(INIT, run).Some? && !Broken(run) && Taken(run) != Received(run)
    ensures NoRecv(more) && Exec(INIT, run + more + [ProcessEnd(false)]).Some?
    ensures Exec(INIT, run + more + [ProcessEnd(false)]).value.loop.Returned?
  {
    BrokenIff(run);
    BehindMeansBacklog(run);
    var s := Exec(INIT, run).value;
    var t := TakesNext(s);
    more :| NoRecv(more) && Exec(s, more) == Some(t);
    ExecAppend(INIT, run, more);
    ExecOne(INIT, run + more, ProcessEnd(false));
  }

  /** A push can fail too: its done is called, and then the stream ends. */
  lemma PushCanFail(run: seq<Label>, e: Event) returns (more: seq<Label>)
    requires Exec(INIT, run).Some? && !Broken(run) && Stop !in run
    ensures NoRecv(more) && Exec(INIT, run + more + [PushStart(e)] + [PushEnd(false)] + [Done(e)]).Some?
    ensures Exec(INIT, run + more + [PushStart(e)] + [PushEnd(false)] + [Done(e)]).value.loop.Returned?
  {
    more := PushCanStart(run, e);
    var started := run + more + [PushStart(e)];
    ExecOne(INIT, run + more, PushStart(e));
    ExecOne(INIT, started, PushEnd(false));
    ExecOne(INIT, started + [PushEnd(false)], Done(e));
  }

  /** A stopped stream can end without another request or push. */
  lemma StopCanBeSeen(run: seq<Label>) returns (more: seq<Label>)
    requires Exec(INIT, run).Some? && !Broken(run)
    ensures forall l :: l in more ==> !l.Recv? && !l.TakeFirst? && !l.TakeSecond? && !l.PushStart?
    ensures Exec(INIT, run + more + [Stop] + [SeeStop]).Some?
    ensures Exec(INIT, run + more + [Stop] + [SeeStop]).value.loop.Returned?
  {
    BrokenIff(run);
    var s := Exec(INIT, run).value;
    more := Finish(s.loop);
    FinishReachesSelect(s);
    ExecAppend(INIT, run, more);
    ExecOne(INIT, run + more, Stop);
    ExecOne(INIT, run + more + [Stop], SeeStop);
  }

  predicate ReceiveFailed(run: seq<Label>) {
    exists i :: 0 <= i < |run| && run[i].RecvError?
  }

  /** The error of a failed receive stays in its channel: nobody reads it, and nothing is received after. */
  lemma {:induction false} ErrorIsNeverRead(run: seq<Label>)
    requires Exec(INIT, run).Some?
    ensures var s := Exec(INIT, run).value;
            && (s.errorChan == [] <==> !ReceiveFailed(run))
            && (forall i :: 0 <= i < |run| && run[i].RecvError? ==> s.errorChan == [run[i].message])
            && (s.errorChan != [] ==> s.receive == Exited([]))
            && (s.receive == Exited([]) ==> s.errorChan != [])
    ensures forall i, j :: 0 <= i < j < |run| && run[i].RecvError? ==> !run[j].Recv?
  {
    if run != [] {
      var init, l := run[..|run| - 1], run[|run| - 1];
      ErrorIsNeverRead(init);
      ErrorStep(Exec(INIT, init).value, l);
      assert run == init + [l];
      ReceiveFailedNext(init, l);
    }
  }

  lemma ReceiveFailedNext(run: seq<Label>, l: Label)
    ensures ReceiveFailed(run + [l]) <==> ReceiveFailed(run) || l.RecvError?
  {
    assert (run + [l])[|run|] == l;
    if i :| 0 <= i < |run| && run[i].RecvError? {
      assert (run + [l])[i].RecvError?;
    }
  }

  lemma ErrorStep(s: State, l: Label)
    requires Step(s, l).Some? && (s.errorChan != [] <==> s.receive == Exited([]))
    ensures var t := Step(s, l).value;
            && (t.errorChan != [] <==> t.receive == Exited([]))
            && (l.RecvError? ==> s.errorChan == [] && t.errorChan == [l.message])
            && (!l.RecvError? ==> t.errorChan == s.errorChan)
            && (s.errorChan != [] ==> !l.Recv?)
  {
  }

  /** On a stream that is not broken a receive can fail, once the requests before it are taken, and the error
      is reported. */
  lemma ReceiveCanFail(run: seq<Label>, message: string) returns (more: seq<Label>)
    requires Exec(INIT, run).Some? && !Broken(run) && !ReceiveFailed(run)
    ensures NoRecv(more) && Exec(INIT, run + more + [RecvError(message)]).Some?
    ensures Exec(INIT, run + more + [RecvError(message)]).value.errorChan == [message]
  {
    BrokenIff(run);
    ErrorIsNeverRead(run);
    var s := Exec(INIT, run).value;
    var t := TakesAll(s);
    more :| NoRecv(more) && Exec(s, more) == Some(t);
    ExecAppend(INIT, run, more);
    ExecOne(INIT, run + more, RecvError(message));
    assert t.receive.Reading? && t.errorChan == [];
    assert [] + [message] == [message];
  }

  /** And a stream that closes while a request is in hand drops that request. */
  lemma CloseDropsTheRequestInHand(run: seq<Label>, r: Request)
    requires Exec(INIT, run + [Recv(r)]).Some?
    ensures Exec(INIT, run + [Recv(r)] + [StreamDone]).Some?
    ensures Exec(INIT, run + [Recv(r)] + [StreamDone]).value.receive == Exited([r])
  {
    assert (run + [Recv(r)])[..|run|] == run;
    ExecOne(INIT, run, Recv(r));
    ExecOne(INIT, run + [Recv(r)], StreamDone);
  }
}
