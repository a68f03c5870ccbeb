/**
 The FIFO bridge between River workers and the scraper (scraper/provider.go): callers
 that enqueue, one goroutine that moves jobs from the input channel to the output
 channel, a consumer, and `Close`.

 Every mutex section and channel operation is a step. A `select` is a choice among the
 steps whose channels are ready.
 */
module Provider {
  import opened Wrappers

  type CallId = nat

  datatype Answer = Accepted | ProviderClosed | ContextError

  /** One call of `Push` or `Submit`; `late` says that it began after the closed flag was set. */
  datatype Call =
    | Begun(job: string, late: bool)
    | Selecting(job: string, late: bool)
    | Answered(job: string, late: bool, answer: Answer)

  datatype Runner = Receiving | Holding(item: Item) | Exited

  /**
   One call of `Close`: the five statements of the body that the once guards, or waiting for the call that
   runs it.
   */
  datatype Close = Arrived | Flagging | ClosingDone | AwaitingRunner | ClosingOutput | Leaving | Blocked | Gone

  /** The once: nobody has come, `holder` is running the body, or `holder` has run it. */
  datatype Once = Free | Held(holder: CallId) | Spent(holder: CallId)

  datatype Item = Item(call: CallId, job: string)

  /**
   `accepted`, `dropped` and `delivered` are history: what was sent in, what the goroutine left with, what was
   taken out. So are `doneCloses` and `outputCloses`, which count how often the two channels have been closed.
   */
  datatype State = State(
    inCap: nat, outCap: nat,
    input: seq<Item>, runner: Runner, output: seq<Item>,
    flag: bool, doneCloses: nat, outputCloses: nat,
    once: Once, closers: map<CallId, Close>, calls: map<CallId, Call>,
    accepted: seq<Item>, dropped: seq<Item>, delivered: seq<Item>)

  datatype Label =
    | Enqueue(c: CallId, job: string)
    | CheckFlag(c: CallId)
    | Send(c: CallId)
    | SeeDone(c: CallId)
    | ContextEnds(c: CallId)
    | Take
    | Put
    | StopIdle
    | StopHolding
    | Consume
    | CallClose(c: CallId)
    | EnterOnce(c: CallId)
    | SetFlag(c: CallId)
    | CloseDone(c: CallId)
    | AwaitRunner(c: CallId)
    | CloseOutput(c: CallId)
    | LeaveOnce(c: CallId)
    | Unblock(c: CallId)

  function NewProvider(bufferSize: int): State {
    var size := if bufferSize <= 0 then 100 else bufferSize;
    State(size * 2, size, [], Receiving, [], false, 0, 0, Free, map[], map[], [], [], [])
  }

  predicate DoneIsClosed(s: State) { s.doneCloses > 0 }
  predicate OutputIsClosed(s: State) { s.outputCloses > 0 }

  predicate CloserAt(s: State, c: CallId, at: Close) {
    c in s.closers && s.closers[c] == at
  }

  predicate Pending(s: State, c: CallId) {
    c in s.calls && s.calls[c].Selecting?
  }

  predicate Enabled(s: State, l: Label) {
    match l
    case Enqueue(c, _) => c !in s.calls
    case CheckFlag(c) => c in s.calls && s.calls[c].Begun?
    case Send(c) => Pending(s, c) && |s.input| < s.inCap
    case SeeDone(c) => Pending(s, c) && DoneIsClosed(s)
    case ContextEnds(c) => Pending(s, c)
    case Take => s.runner.Receiving? && s.input != []
    case Put => s.runner.Holding? && |s.output| < s.outCap
    case StopIdle => s.runner.Receiving? && DoneIsClosed(s)
    case StopHolding => s.runner.Holding? && DoneIsClosed(s)
    case Consume => s.output != []
    case CallClose(c) => c !in s.closers
    case EnterOnce(c) => CloserAt(s, c, Arrived)
    case SetFlag(c) => CloserAt(s, c, Flagging)
    case CloseDone(c) => CloserAt(s, c, ClosingDone)
    case AwaitRunner(c) => CloserAt(s, c, AwaitingRunner) && s.runner.Exited?
    case CloseOutput(c) => CloserAt(s, c, ClosingOutput)
    case LeaveOnce(c) => CloserAt(s, c, Leaving)
    case Unblock(c) => CloserAt(s, c, Blocked) && s.once.Spent?
  }

  function SetCloser(s: State, c: CallId, at: Close): State {
    s.(closers := s.closers[c := at])
  }

  /** The first to come runs the body; who comes meanwhile waits, who comes later leaves. */
  function Enter(s: State, c: CallId): State {
    match s.once
    case Free => SetCloser(s, c, Flagging).(once := Held(c))
    case Held(_) => SetCloser(s, c, Blocked)
    case Spent(_) => SetCloser(s, c, Gone)
  }

  function Reply(s: State, c: CallId, answer: Answer): State
    requires c in s.calls
  {
    s.(calls := s.calls[c := Answered(s.calls[c].job, s.calls[c].late, answer)])
  }

  function Step(s: State, l: Label): State
    requires Enabled(s, l)
  {
    match l
    case Enqueue(c, job) => s.(calls := s.calls[c := Begun(job, s.flag)])
    case CheckFlag(c) =>
      if s.flag then Reply(s, c, ProviderClosed)
      else s.(calls := s.calls[c := Selecting(s.calls[c].job, s.calls[c].late)])
    case Send(c) =>
      var item := Item(c, s.calls[c].job);
      Reply(s, c, Accepted).(input := s.input + [item], accepted := s.accepted + [item])
    case SeeDone(c) => Reply(s, c, ProviderClosed)
    case ContextEnds(c) => Reply(s, c, ContextError)
    case Take => s.(runner := Holding(s.input[0]), input := s.input[1..])
    case Put => s.(runner := Receiving, output := s.output + [s.runner.item])
    case StopIdle => s.(runner := Exited)
    case StopHolding => s.(runner := Exited, dropped := [s.runner.item])
    case Consume => s.(output := s.output[1..], delivered := s.delivered + [s.output[0]])
    case CallClose(c) => SetCloser(s, c, Arrived)
    case EnterOnce(c) => Enter(s, c)
    case SetFlag(c) => SetCloser(s, c, ClosingDone).(flag := true)
    case CloseDone(c) => SetCloser(s, c, AwaitingRunner).(doneCloses := s.doneCloses + 1)
    case AwaitRunner(c) => SetCloser(s, c, ClosingOutput)
    case CloseOutput(c) => SetCloser(s, c, Leaving).(outputCloses := s.outputCloses + 1)
    case LeaveOnce(c) => SetCloser(s, c, Gone).(once := Spent(c))
    case Unblock(c) => SetCloser(s, c, Gone)
  }

  function Execute(s: State, run: seq<Label>): Option<State>
    decreases |run|
  {
    if run == [] then Some(s)
    else if Enabled(s, run[0]) then Execute(Step(s, run[0]), run[1..])
    else None
  }

  // ---------- The invariant ----------

  function InHand(s: State): seq<Item> {
    if s.runner.Holding? then [s.runner.item] else []
  }

  /** Every accepted job is in exactly one place, and the places line up in the order of acceptance. */
  predicate Conserved(s: State) {
    s.accepted == s.delivered + s.output + s.dropped + InHand(s) + s.input
  }

  predicate WasAccepted(s: State, c: CallId) {
    c in s.calls && s.calls[c].Answered? && s.calls[c].answer.Accepted?
  }

  /** A call was told "accepted" exactly if its job was accepted, once. */
  ghost predicate AnswersTrue(s: State) {
    && (forall i :: 0 <= i < |s.accepted| ==>
          WasAccepted(s, s.accepted[i].call) && s.calls[s.accepted[i].call].job == s.accepted[i].job)
    && (forall c :: WasAccepted(s, c) ==> exists i :: 0 <= i < |s.accepted| && s.accepted[i].call == c)
    && (forall i, j :: 0 <= i < j < |s.accepted| ==> s.accepted[i].call != s.accepted[j].call)
  }

  predicate InBody(at: Close) {
    at.Flagging? || at.ClosingDone? || at.AwaitingRunner? || at.ClosingOutput? || at.Leaving?
  }

  /** What the shared variables say about the call that runs the body, statement by statement. */
  predicate BodyProgress(s: State, at: Close) {
    && (s.flag <==> !at.Flagging?)
    && s.doneCloses == (if at.Flagging? || at.ClosingDone? then 0 else 1)
    && s.outputCloses == (if at.Leaving? then 1 else 0)
    && (at.ClosingOutput? || at.Leaving? ==> s.runner.Exited?)
  }

  /** Only the call that holds the once is in the body, and nobody has left before the body was over. */
  ghost predicate ClosersOk(s: State) {
    && (forall c :: c in s.closers && InBody(s.closers[c]) ==> s.once == Held(c))
    && (forall c :: c in s.closers && s.closers[c].Gone? ==> s.once.Spent?)
    && (forall c :: c in s.closers && s.closers[c].Blocked? ==> !s.once.Free?)
    && match s.once
       case Free => BodyProgress(s, Flagging)
       case Held(c) => c in s.closers && InBody(s.closers[c]) && BodyProgress(s, s.closers[c])
       case Spent(c) => BodyProgress(s, Leaving)
  }

  /** A call that began after the flag was set is refused. */
  ghost predicate LateCallsFail(s: State) {
    && (forall c :: c in s.calls && s.calls[c].late ==>
          s.calls[c].Begun? || s.calls[c] == Answered(s.calls[c].job, true, ProviderClosed))
    && ((exists c :: c in s.calls && s.calls[c].late) ==> s.flag)
  }

  ghost predicate Inv(s: State) {
    Conserved(s) && AnswersTrue(s) && ClosersOk(s) && LateCallsFail(s) && InBounds(s)
  }

  /** The buffers keep their capacity, and the goroutine stops only for a close. */
  predicate InBounds(s: State) {
    && |s.input| <= s.inCap && |s.output| <= s.outCap
    && (s.runner.Exited? ==> DoneIsClosed(s))
    && (s.dropped != [] ==> s.runner.Exited?)
  }

  lemma MovementConserves(s: State, l: Label)
    requires Conserved(s) && Enabled(s, l) && (s.dropped != [] ==> s.runner.Exited?)
    ensures Conserved(Step(s, l))
  {
    if l.Send? || l.Take? || l.Put? || l.StopHolding? || l.Consume? {
      ItemMoves(s, l);
    }
  }

  /** The steps that move an item from one place to the next. */
  lemma ItemMoves(s: State, l: Label)
    requires Conserved(s) && Enabled(s, l) && (s.dropped != [] ==> s.runner.Exited?)
    requires l.Send? || l.Take? || l.Put? || l.StopHolding? || l.Consume?
    ensures Conserved(Step(s, l))
  {
    match l
    case Send(c) => AtTheEnd(s.delivered + s.output + s.dropped + InHand(s), s.input, Item(c, s.calls[c].job));
    case Take => TakenFromInput(s.delivered + s.output + s.dropped, s.input);
    case Put => PutToOutput(s.delivered, s.output, s.runner.item, s.input);
    case StopHolding => LeftWithItem(s.delivered + s.output, s.runner.item, s.input);
    case Consume => ConsumedFromOutput(s.delivered, s.output, s.dropped, InHand(s), s.input);
  }

  lemma AtTheEnd(before: seq<Item>, input: seq<Item>, item: Item)
    ensures before + (input + [item]) == (before + input) + [item]
  {
  }

  lemma TakenFromInput(before: seq<Item>, input: seq<Item>)
    requires input != []
    ensures before + [] + input == before + [input[0]] + input[1..]
  {
  }

  lemma PutToOutput(delivered: seq<Item>, output: seq<Item>, item: Item, input: seq<Item>)
    ensures delivered + output + [] + [item] + input == delivered + (output + [item]) + [] + [] + input
  {
  }

  lemma LeftWithItem(before: seq<Item>, item: Item, input: seq<Item>)
    ensures before + [] + [item] + input == before + [item] + [] + input
  {
  }

  lemma ConsumedFromOutput(delivered: seq<Item>, output: seq<Item>, dropped: seq<Item>, hand: seq<Item>,
      input: seq<Item>)
    requires output != []
    ensures delivered + output + dropped + hand + input
            == (delivered + [output[0]]) + output[1..] + dropped + hand + input
  {
    assert delivered + output == (delivered + [output[0]]) + output[1..];
  }

  lemma AcceptingKeepsAnswers(s: State, c: CallId)
    requires AnswersTrue(s) && Enabled(s, Send(c))
    ensures AnswersTrue(Step(s, Send(c)))
  {
    var s' := Step(s, Send(c));
    forall d | WasAccepted(s', d) ensures exists i :: 0 <= i < |s'.accepted| && s'.accepted[i].call == d {
      if d == c {
        assert s'.accepted[|s.accepted|].call == d;
      } else {
        assert WasAccepted(s, d);
        var i :| 0 <= i < |s.accepted| && s.accepted[i].call == d;
        assert s'.accepted[i].call == d;
      }
    }
  }

  /** Any change of the calls that leaves the accepted ones as they are, and accepts none. */
  lemma AnswersUnaffected(s: State, s': State)
    requires AnswersTrue(s) && s'.accepted == s.accepted
    requires forall c :: WasAccepted(s, c) ==> c in s'.calls && s'.calls[c] == s.calls[c]
    requires forall c :: WasAccepted(s', c) ==> WasAccepted(s, c)
    ensures AnswersTrue(s')
  {
  }

  lemma AnswersStayTrue(s: State, l: Label)
    requires AnswersTrue(s) && Enabled(s, l)
    ensures AnswersTrue(Step(s, l))
  {
    if l.Send? {
      AcceptingKeepsAnswers(s, l.c);
    } else {
      AnswersUnaffected(s, Step(s, l));
    }
  }

  predicate OfClose(l: Label) {
    || l.CallClose? || l.EnterOnce? || l.SetFlag? || l.CloseDone?
    || l.AwaitRunner? || l.CloseOutput? || l.LeaveOnce? || l.Unblock?
  }

  lemma CloseStepKeepsClosers(s: State, l: Label)
    requires ClosersOk(s) && Enabled(s, l) && OfClose(l)
    ensures ClosersOk(Step(s, l))
  {
    if l.CallClose? || l.EnterOnce? || l.Unblock? {
      ComingAndGoing(s, l);
    } else {
      BodyStep(s, l);
    }
  }

  lemma ComingAndGoing(s: State, l: Label)
    requires ClosersOk(s) && Enabled(s, l) && (l.CallClose? || l.EnterOnce? || l.Unblock?)
    ensures ClosersOk(Step(s, l))
  {
  }

  lemma BodyStep(s: State, l: Label)
    requires ClosersOk(s) && Enabled(s, l)
    requires l.SetFlag? || l.CloseDone? || l.AwaitRunner? || l.CloseOutput? || l.LeaveOnce?
    ensures ClosersOk(Step(s, l))
  {
    assert s.once == Held(l.c);
  }

  lemma OtherStepKeepsClosers(s: State, l: Label)
    requires ClosersOk(s) && Enabled(s, l) && !OfClose(l)
    ensures ClosersOk(Step(s, l))
  {
  }

  lemma LateCallsStayOut(s: State, l: Label)
    requires LateCallsFail(s) && Enabled(s, l)
    ensures LateCallsFail(Step(s, l))
  {
  }

  lemma StepKeepsInv(s: State, l: Label)
    requires Inv(s) && Enabled(s, l)
    ensures Inv(Step(s, l))
  {
    MovementConserves(s, l);
    AnswersStayTrue(s, l);
    LateCallsStayOut(s, l);
    ClosersStayOk(s, l);
    ChannelsStayInBounds(s, l);
  }

  lemma ClosersStayOk(s: State, l: Label)
    requires ClosersOk(s) && Enabled(s, l)
    ensures ClosersOk(Step(s, l))
  {
    if OfClose(l) {
      CloseStepKeepsClosers(s, l);
    } else {
      OtherStepKeepsClosers(s, l);
    }
  }

  lemma ChannelsStayInBounds(s: State, l: Label)
    requires InBounds(s) && Enabled(s, l)
    ensures InBounds(Step(s, l))
  {
  }

  lemma {:induction false} ExecuteKeepsInv(s: State, run: seq<Label>)
    requires Inv(s) && Execute(s, run).Some?
    ensures Inv(Execute(s, run).value)
    decreases |run|
  {
    if run != [] {
      StepKeepsInv(s, run[0]);
      ExecuteKeepsInv(Step(s, run[0]), run[1..]);
    }
  }

  lemma RunInv(bufferSize: int, run: seq<Label>)
    requires Execute(NewProvider(bufferSize), run).Some?
    ensures Inv(Execute(NewProvider(bufferSize), run).value)
  {
    ExecuteKeepsInv(NewProvider(bufferSize), run);
  }

  // ---------- Main results ----------

  /**
   First in, first out: deliveries are a prefix of what was accepted, and only a close can keep a job in the
   bridge.
   */
  lemma DeliversInOrder(bufferSize: int, run: seq<Label>)
    requires Execute(NewProvider(bufferSize), run).Some?
    ensures var s := Execute(NewProvider(bufferSize), run).value;
            && s.delivered <= s.accepted
            && s.accepted == s.delivered + s.output + s.dropped + InHand(s) + s.input
            && |s.dropped| <= 1
            && (!DoneIsClosed(s) ==> s.accepted == s.delivered + s.output + InHand(s) + s.input)
  {
    RunInv(bufferSize, run);
    AtMostOneDropped(NewProvider(bufferSize), run);
    var s := Execute(NewProvider(bufferSize), run).value;
    DeliveredFirst(s.delivered, s.output, s.dropped, InHand(s), s.input);
  }

  lemma DeliveredFirst(a: seq<Item>, b: seq<Item>, c: seq<Item>, d: seq<Item>, e: seq<Item>)
    ensures a <= a + b + c + d + e
    ensures c == [] ==> a + b + c + d + e == a + b + d + e
  {
    assert a + b + c + d + e == a + (b + c + d + e);
    if c == [] {
      assert b + c == b;
    }
  }

  lemma {:induction false} AtMostOneDropped(s: State, run: seq<Label>)
    requires |s.dropped| <= 1 && Execute(s, run).Some?
    ensures |Execute(s, run).value.dropped| <= 1
    decreases |run|
  {
    if run != [] {
      AtMostOneDropped(Step(s, run[0]), run[1..]);
    }
  }

  /**
   A caller is told "accepted" exactly for the jobs that went in, each once; a call that begins after the flag
   never is.
   */
  lemma CallersAreToldTheTruth(bufferSize: int, run: seq<Label>, c: CallId)
    requires Execute(NewProvider(bufferSize), run).Some?
    requires c in Execute(NewProvider(bufferSize), run).value.calls
    ensures var s := Execute(NewProvider(bufferSize), run).value;
            && (WasAccepted(s, c) <==> Item(c, s.calls[c].job) in s.accepted)
            && (forall i, j :: 0 <= i < j < |s.accepted| ==> s.accepted[i].call != s.accepted[j].call)
            && (s.calls[c].late && s.calls[c].Answered? ==> s.calls[c].answer == ProviderClosed)
            && !(s.calls[c].late && s.calls[c].Selecting?)
  {
    RunInv(bufferSize, run);
    var s := Execute(NewProvider(bufferSize), run).value;
    if WasAccepted(s, c) {
      var i :| 0 <= i < |s.accepted| && s.accepted[i].call == c;
      assert s.accepted[i] == Item(c, s.calls[c].job);
    }
  }

  /** Once the output channel is closed nothing is sent on it: the consumer gets what is buffered, and no more. */
  lemma NothingIsSentAfterClose(bufferSize: int, run: seq<Label>, later: seq<Label>)
    requires Execute(NewProvider(bufferSize), run).Some?
    requires OutputIsClosed(Execute(NewProvider(bufferSize), run).value)
    requires Execute(Execute(NewProvider(bufferSize), run).value, later).Some?
    ensures var s := Execute(NewProvider(bufferSize), run).value;
            var s' := Execute(s, later).value;
            && OutputIsClosed(s') && s'.delivered + s'.output == s.delivered + s.output
            && Put !in later && Take !in later
  {
    RunInv(bufferSize, run);
    AfterClose(Execute(NewProvider(bufferSize), run).value, later);
  }

  lemma {:induction false} AfterClose(s: State, later: seq<Label>)
    requires OutputIsClosed(s) && s.runner.Exited? && Execute(s, later).Some?
    ensures var s' := Execute(s, later).value;
            && OutputIsClosed(s') && s'.delivered + s'.output == s.delivered + s.output
            && Put !in later && Take !in later
    decreases |later|
  {
    if later != [] {
      var s1 := Step(s, later[0]);
      AfterClose(s1, later[1..]);
      assert s1.delivered + s1.output == s.delivered + s.output;
    }
  }

  /**
   Any number of calls of `Close` may overlap: at most one of them is in the body at a time, each channel
   is closed at most once, and whoever has returned finds both channels closed and the goroutine gone.
   */
  lemma ChannelsAreClosedOnce(bufferSize: int, run: seq<Label>)
    requires Execute(NewProvider(bufferSize), run).Some?
    ensures var s := Execute(NewProvider(bufferSize), run).value;
            && s.doneCloses <= 1 && s.outputCloses <= 1
            && (forall c, d :: c in s.closers && d in s.closers && InBody(s.closers[c]) && InBody(s.closers[d]) ==>
                  c == d)
            && (forall c :: c in s.closers && s.closers[c].Gone? ==>
                  s.doneCloses == 1 && s.outputCloses == 1 && s.runner.Exited?)
            && (OutputIsClosed(s) ==> DoneIsClosed(s) && s.flag)
  {
    RunInv(bufferSize, run);
  }

  /** The body is entered by one call in the whole run. */
  lemma OneCallRunsTheBody(bufferSize: int, run: seq<Label>, c: CallId, d: CallId)
    requires Execute(NewProvider(bufferSize), run).Some? && SetFlag(c) in run && SetFlag(d) in run
    ensures c == d
  {
    RunsBelongToOnce(NewProvider(bufferSize), run, c);
    RunsBelongToOnce(NewProvider(bufferSize), run, d);
  }

  predicate HasOnce(s: State, c: CallId) {
    s.once == Held(c) || s.once == Spent(c)
  }

  lemma {:induction false} RunsBelongToOnce(s: State, run: seq<Label>, c: CallId)
    requires Inv(s) && Execute(s, run).Some? && (SetFlag(c) in run || HasOnce(s, c))
    ensures HasOnce(Execute(s, run).value, c)
    decreases |run|
  {
    if run != [] {
      StepKeepsInv(s, run[0]);
      if HasOnce(s, c) || run[0] == SetFlag(c) {
        KeepsOnce(s, run[0], c);
      }
      RunsBelongToOnce(Step(s, run[0]), run[1..], c);
    }
  }

  lemma KeepsOnce(s: State, l: Label, c: CallId)
    requires ClosersOk(s) && Enabled(s, l) && (HasOnce(s, c) || l == SetFlag(c))
    ensures HasOnce(Step(s, l), c)
  {
  }

  // ---------- Progress ----------

  /** How many statements of the body are still to come, the goroutine's exit included. */
  function ToGo(s: State, at: Close): nat {
    match at
    case Flagging => 6
    case ClosingDone => 5
    case AwaitingRunner => if s.runner.Exited? then 3 else 4
    case ClosingOutput => 2
    case Leaving => 1
    case _ => 0
  }

  /** The next label on the way of the call that runs the body. */
  function NextOfBody(s: State, c: CallId): Label
    requires c in s.closers
  {
    match s.closers[c]
    case Flagging => SetFlag(c)
    case ClosingDone => CloseDone(c)
    case AwaitingRunner =>
      if s.runner.Receiving? then StopIdle else if s.runner.Holding? then StopHolding else AwaitRunner(c)
    case ClosingOutput => CloseOutput(c)
    case _ => LeaveOnce(c)
  }

  lemma BodyMovesOn(s: State, c: CallId)
    requires Inv(s) && c in s.closers && InBody(s.closers[c])
    ensures var l := NextOfBody(s, c);
            && Enabled(s, l) && Step(s, l).closers.Keys == s.closers.Keys
            && (forall d :: d in s.closers && d != c ==> Step(s, l).closers[d] == s.closers[d])
            && (if InBody(Step(s, l).closers[c]) then ToGo(Step(s, l), Step(s, l).closers[c]) < ToGo(s, s.closers[c])
                else Step(s, l).closers[c].Gone? && Step(s, l).once == Spent(c))
  {
    assert s.once == Held(c);
  }

  /** The call in the body can always finish it. */
  lemma {:induction false} BodyCanFinish(s: State, c: CallId) returns (more: seq<Label>)
    requires Inv(s) && c in s.closers && InBody(s.closers[c])
    ensures Execute(s, more).Some?
    ensures var s' := Execute(s, more).value;
            && Inv(s') && s'.once == Spent(c) && s'.closers.Keys == s.closers.Keys && s'.closers[c].Gone?
            && forall d :: d in s.closers && d != c ==> s'.closers[d] == s.closers[d]
    decreases ToGo(s, s.closers[c])
  {
    var l := NextOfBody(s, c);
    BodyMovesOn(s, c);
    StepKeepsInv(s, l);
    var s1 := Step(s, l);
    if InBody(s1.closers[c]) {
      var rest := BodyCanFinish(s1, c);
      more := Prefixed(s, l, rest);
    } else {
      more := Prefixed(s, l, []);
    }
  }

  lemma Prefixed(s: State, l: Label, rest: seq<Label>) returns (more: seq<Label>)
    requires Enabled(s, l)
    ensures Execute(s, more) == Execute(Step(s, l), rest)
  {
    more := [l] + rest;
    assert more[1..] == rest;
  }

  /** From a waiting call: the body, if a call is in it, and then the way out. */
  lemma WaitingCanReturn(s: State, c: CallId) returns (more: seq<Label>)
    requires Inv(s) && CloserAt(s, c, Blocked)
    ensures Execute(s, more).Some? && CloserAt(Execute(s, more).value, c, Gone)
  {
    var body: seq<Label> := [];
    if s.once.Held? {
      body := BodyCanFinish(s, s.once.holder);
    }
    var s1 := Execute(s, body).value;
    more := Suffixed(s, body, Unblock(c));
  }

  lemma {:induction false} Suffixed(s: State, run: seq<Label>, l: Label) returns (longer: seq<Label>)
    requires Execute(s, run).Some? && Enabled(Execute(s, run).value, l)
    ensures Execute(s, longer) == Some(Step(Execute(s, run).value, l))
    decreases |run|
  {
    if run == [] {
      longer := Prefixed(s, l, []);
    } else {
      var rest := Suffixed(Step(s, run[0]), run[1..], l);
      longer := Prefixed(s, run[0], rest);
    }
  }

  /** `Close` never deadlocks: in every reachable state each call of it has a continuation in which it returns. */
  lemma CloseCanReturn(bufferSize: int, run: seq<Label>, c: CallId) returns (more: seq<Label>)
    requires Execute(NewProvider(bufferSize), run).Some?
    requires c in Execute(NewProvider(bufferSize), run).value.closers
    ensures var s := Execute(NewProvider(bufferSize), run).value;
            Execute(s, more).Some? && CloserAt(Execute(s, more).value, c, Gone)
  {
    RunInv(bufferSize, run);
    var s := Execute(NewProvider(bufferSize), run).value;
    if s.closers[c].Arrived? {
      StepKeepsInv(s, EnterOnce(c));
      var rest := PastArrivalCanReturn(Step(s, EnterOnce(c)), c);
      more := Prefixed(s, EnterOnce(c), rest);
    } else {
      more := PastArrivalCanReturn(s, c);
    }
  }

  lemma PastArrivalCanReturn(s: State, c: CallId) returns (more: seq<Label>)
    requires Inv(s) && c in s.closers && !s.closers[c].Arrived?
    ensures Execute(s, more).Some? && CloserAt(Execute(s, more).value, c, Gone)
  {
    if s.closers[c].Gone? {
      more := [];
    } else if s.closers[c].Blocked? {
      more := WaitingCanReturn(s, c);
    } else {
      more := BodyCanFinish(s, c);
    }
  }
}
