/** `StdinIterator` of rx/worker/executor.py: the thread that reads stdin and the
    gRPC thread that asks for the next request share a buffer under a condition
    variable. What happens while the lock is held is one atomic step. */
module StdinStream {
  import opened Prelude

  /** An `ExecRequest`: the one that starts the execution, or some input. */
  datatype Request = Start(argv: seq<string>) | Input(text: string)

  /** The thread in `__next__`. */
  datatype ConsumerPc = Idle | Entering | Waiting(notified: bool) | Ended

  /** `texts` are the non-empty results of `sys.stdin.read()`, `delivered` what
      `__next__` returned. */
  datatype State = State(
    running: bool,
    buffer: seq<Request>,
    consumer: ConsumerPc,
    texts: seq<string>,
    delivered: seq<Request>)

  datatype Action = GotStdin(text: string) | Next | Exit

  function Init(request: Request): State {
    State(true, [request], Idle, [], [])
  }

  function ProducerStep(s: State, text: string): State {
    if text == "" then s
    else s.(buffer := s.buffer + [Input(text)],
            texts := s.texts + [text],
            consumer := if s.consumer.Waiting? then Waiting(true) else s.consumer)
  }

  /** The body of `__next__` once it holds the lock. */
  function Locked(s: State): State {
    if |s.buffer| > 0 then
      s.(consumer := Idle, delivered := s.delivered + [s.buffer[0]], buffer := s.buffer[1..])
    else if !s.running then s.(consumer := Ended)
    else s.(consumer := Waiting(false))
  }

  function ConsumerStep(s: State): State {
    match s.consumer
    case Idle => s.(consumer := if s.running then Entering else Ended)
    case Entering => Locked(s)
    case Waiting(notified) => if notified then Locked(s) else s
    case Ended => s
  }

  function Step(s: State, a: Action): State {
    match a
    case GotStdin(text) => ProducerStep(s, text)
    case Next => ConsumerStep(s)
    case Exit => s.(running := false)
  }

  function Run(s: State, schedule: seq<Action>): State
    decreases |schedule|
  {
    if schedule == [] then s else Run(Step(s, schedule[0]), schedule[1..])
  }

  /** One request for each non-empty read. */
  function Inputs(texts: seq<string>): seq<Request> {
    seq(|texts|, i requires 0 <= i < |texts| => Input(texts[i]))
  }

  predicate Inv(s: State, request: Request) {
    && s.delivered + s.buffer == [request] + Inputs(s.texts)
    && (s.consumer == Waiting(false) ==> |s.buffer| == 0)
  }

  lemma StepKeepsInv(s: State, request: Request, a: Action)
    requires Inv(s, request)
    ensures Inv(Step(s, a), request)
  {
    if a.GotStdin? && a.text != "" {
      assert Inputs(s.texts + [a.text]) == Inputs(s.texts) + [Input(a.text)];
      assert s.delivered + (s.buffer + [Input(a.text)]) == (s.delivered + s.buffer) + [Input(a.text)];
    }
    if a.Next? && |s.buffer| > 0 {
      assert s.buffer == [s.buffer[0]] + s.buffer[1..];
    }
  }

  lemma {:induction false} RunKeepsInv(s: State, request: Request, schedule: seq<Action>)
    requires Inv(s, request)
    ensures Inv(Run(s, schedule), request)
    decreases |schedule|
  {
    if schedule != [] {
      StepKeepsInv(s, request, schedule[0]);
      RunKeepsInv(Step(s, schedule[0]), request, schedule[1..]);
    }
  }

  /** The non-empty reads of stdin in a schedule. */
  function ReadTexts(schedule: seq<Action>): seq<string> {
    if schedule == [] then [] else ReadText(schedule[0]) + ReadTexts(schedule[1..])
  }

  function ReadText(a: Action): seq<string> {
    if a.GotStdin? && a.text != "" then [a.text] else []
  }

  lemma StepReads(s: State, a: Action)
    ensures Step(s, a).texts == s.texts + ReadText(a)
  {
  }

  lemma {:induction false} TextsAreReads(s: State, schedule: seq<Action>)
    ensures Run(s, schedule).texts == s.texts + ReadTexts(schedule)
    decreases |schedule|
  {
    if schedule != [] {
      var a, rest := schedule[0], schedule[1..];
      StepReads(s, a);
      TextsAreReads(Step(s, a), rest);
      assert (s.texts + ReadText(a)) + ReadTexts(rest) == s.texts + (ReadText(a) + ReadTexts(rest));
    }
  }

  /** In every interleaving what was delivered and what is buffered are, in
      order, the initial request and one request for each non-empty read; so the
      first delivered is the initial one and nothing is lost, repeated or
      reordered. A consumer that sleeps without a notification has nothing to
      take. */
  lemma InputInOrder(request: Request, schedule: seq<Action>)
    ensures
      var s, all := Run(Init(request), schedule), [request] + Inputs(ReadTexts(schedule));
      && s.delivered + s.buffer == all
      && s.delivered <= all
      && (s.delivered != [] ==> s.delivered[0] == request)
      && (s.consumer == Waiting(false) ==> s.buffer == [])
  {
    assert Inputs([]) == [];
    RunKeepsInv(Init(request), request, schedule);
    TextsAreReads(Init(request), schedule);
    assert [] + ReadTexts(schedule) == ReadTexts(schedule);
  }

  /** As long as it runs, a consumer that asks while something is buffered, or is
      notified, gets the first of it; `__exit__` ends an iteration that asks
      afterwards. */
  lemma AskingDelivers(request: Request, schedule: seq<Action>)
    ensures
      var s := Run(Init(request), schedule);
      var t := Step(Step(s, Next), Next);
      && (s.running && s.consumer.Idle? && s.buffer != [] ==>
            t.consumer.Idle? && t.delivered == s.delivered + [s.buffer[0]])
      && (s.consumer == Waiting(true) && s.buffer != [] ==>
            Step(s, Next).consumer.Idle? && Step(s, Next).delivered == s.delivered + [s.buffer[0]])
      && (!s.running && s.consumer.Idle? ==> t.consumer.Ended? && t.delivered == s.delivered)
  {
  }

  /** No more input arrives. */
  predicate Silent(schedule: seq<Action>) {
    forall i :: 0 <= i < |schedule| ==> schedule[i].GotStdin? ==> schedule[i].text == ""
  }

  lemma {:induction false} SleeperStays(s: State, schedule: seq<Action>)
    requires s.consumer == Waiting(false) && Silent(schedule)
    ensures Run(s, schedule).consumer == Waiting(false)
    decreases |schedule|
  {
    if schedule != [] {
      SleeperStays(Step(s, schedule[0]), schedule[1..]);
    }
  }

  lemma {:induction false} NextEnds(s: State) returns (schedule: seq<Action>)
    requires !s.running && s.consumer != Waiting(false)
    ensures Silent(schedule) && Run(s, schedule).consumer.Ended?
    decreases match s.consumer case Ended => 0 case Idle => 1 case Entering => 2 case Waiting(_) => 2
  {
    if s.consumer.Ended? {
      schedule := [];
    } else {
      var rest := NextEnds(Step(s, Next));
      schedule := [Next] + rest;
      assert schedule[1..] == rest;
    }
  }

  /** `__exit__` clears the flag without a notification: without more input the
      iteration can still end exactly if the consumer is not asleep. */
  lemma EndsAfterExitIff(s: State)
    requires !s.running
    ensures (exists schedule :: Silent(schedule) && Run(s, schedule).consumer.Ended?) <==> s.consumer != Waiting(false)
  {
    if s.consumer == Waiting(false) {
      forall schedule | Silent(schedule) ensures !Run(s, schedule).consumer.Ended? {
        SleeperStays(s, schedule);
      }
    } else {
      var schedule := NextEnds(s);
    }
  }

  /** That happens: a consumer that took the initial request and asks for another
      one sleeps, and `__exit__` leaves it there. */
  lemma SleeperIsReachable(request: Request)
    ensures
      var s := Run(Init(request), [Next, Next, Next, Next, Exit]);
      && !s.running && s.delivered == [request]
      && forall schedule :: Silent(schedule) ==> !Run(s, schedule).consumer.Ended?
  {
    var s4 := Step(Step(Step(Step(Init(request), Next), Next), Next), Next);
    assert s4.consumer == Waiting(false) && s4.delivered == [] + [request];
    var s5 := Step(s4, Exit);
    assert Run(s5, []) == s5;
    assert [Next, Next, Next, Next, Exit][1..] == [Next, Next, Next, Exit];
    assert [Next, Next, Next, Exit][1..] == [Next, Next, Exit] && [Next, Next, Exit][1..] == [Next, Exit];
    assert [Next, Exit][1..] == [Exit] && [Exit][1..] == [];
    EndsAfterExitIff(s5);
  }

  /** The object itself, one method per thread. */
  class StdinIterator {
    var running: bool
    var stdinBuffer: seq<Request>
    var consumer: ConsumerPc
    ghost var texts: seq<string>
    ghost var delivered: seq<Request>

    ghost function View(): State
      reads this
    {
      State(running, stdinBuffer, consumer, texts, delivered)
    }

    constructor (request: Request)
      ensures View() == Init(request)
    {
      running, stdinBuffer, consumer := true, [request], Idle;
      texts, delivered := [], [];
    }

    method GotStdin(text: string)
      modifies this
      ensures View() == ProducerStep(old(View()), text)
    {
      if text != "" {
        stdinBuffer := stdinBuffer + [Input(text)];
        texts := texts + [text];
        if consumer.Waiting? {
          consumer := Waiting(true);
        }
      }
    }

    /** The next atomic part of `__next__`; a request when it returns one. */
    method Next() returns (item: Option<Request>)
      modifies this
      ensures View() == ConsumerStep(old(View()))
      ensures delivered == old(delivered) + (if item.Some? then [item.value] else [])
    {
      item := None;
      match consumer
      case Idle =>
        consumer := if running then Entering else Ended;
      case Entering =>
        item := TakeLocked();
      case Waiting(notified) =>
        if notified {
          item := TakeLocked();
        }
      case Ended =>
    }

    method TakeLocked() returns (item: Option<Request>)
      modifies this
      ensures View() == Locked(old(View()))
      ensures delivered == old(delivered) + (if item.Some? then [item.value] else [])
    {
      item := None;
      if |stdinBuffer| > 0 {
        item := Some(stdinBuffer[0]);
        delivered := delivered + [stdinBuffer[0]];
        stdinBuffer := stdinBuffer[1..];
        consumer := Idle;
      } else if !running {
        consumer := Ended;
      } else {
        consumer := Waiting(false);
      }
    }

    method Exit()
      modifies this
      ensures View() == Step(old(View()), Action.Exit)
    {
      running := false;
    }
  }
}
