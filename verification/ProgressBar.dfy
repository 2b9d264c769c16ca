/** Progress bars of rx/shared/progress_bar.py: one bar for each layer id of an
    interleaved stream of messages. */
module Progress {
  import opened Prelude

  /** A `DockerImageProgress`. */
  datatype Message = Message(id: string, status: string, total: int, current: int)

  /** How the stream ends: exhausted, with an RPC error, or with anything else. */
  datatype Ending = Exhausted | RpcError(details: string) | OtherError

  datatype ShowResult = NoResult | Unknown(message: string) | Propagated | AssertionFailed

  /** The state of one bar: tqdm's count, the flag and the description. */
  datatype Bar = Bar(n: int, isDone: bool, description: string)

  function Describe(m: Message): string {
    m.status + " layer " + m.id
  }

  /** `ProgressBar.__init__`. */
  function NewBar(m: Message): Bar {
    Bar(0, false, Describe(m))
  }

  /** `ProgressBar.update`. */
  function Updated(b: Bar, m: Message): Bar {
    if m.total == 0 then b.(description := Describe(m))
    else if b.isDone then b
    else b.(n := m.current, isDone := m.current == m.total)
  }

  /** The messages of one layer, in stream order. */
  function Own(id: string, stream: seq<Message>): seq<Message> {
    if stream == [] then []
    else Own(id, stream[..|stream| - 1]) + (if stream[|stream| - 1].id == id then [stream[|stream| - 1]] else [])
  }

  /** A layer's bar after one of its messages; it appears with the first that has
      a total. */
  function Next(bar: Option<Bar>, m: Message): Option<Bar> {
    match bar
    case None => if m.total == 0 then None else Some(Updated(NewBar(m), m))
    case Some(b) => Some(Updated(b, m))
  }

  /** The state of a layer's bar from the layer's messages alone. */
  function BarOf(own: seq<Message>): Option<Bar> {
    if own == [] then None else Next(BarOf(own[..|own| - 1]), own[|own| - 1])
  }

  /** The states of all layers. */
  function Layers(stream: seq<Message>): string -> Option<Bar> {
    id => BarOf(Own(id, stream))
  }

  /** Only the state of the message's own layer moves. */
  ghost predicate Advances(before: string -> Option<Bar>, after: string -> Option<Bar>, m: Message) {
    forall id :: after(id) == if id == m.id then Next(before(id), m) else before(id)
  }

  lemma OwnStep(stream: seq<Message>, m: Message, id: string)
    ensures BarOf(Own(id, stream + [m])) ==
              if id == m.id then Next(BarOf(Own(id, stream)), m) else BarOf(Own(id, stream))
  {
    assert (stream + [m])[..|stream|] == stream;
    var own := Own(id, stream);
    assert (own + [m])[..|own|] == own;
    assert id != m.id ==> own + [] == own;
  }

  /** The states after each number of messages. */
  function History(stream: seq<Message>): seq<string -> Option<Bar>> {
    seq(|stream| + 1, k requires 0 <= k <= |stream| => Layers(stream[..k]))
  }

  ghost predicate IsHistory(states: seq<string -> Option<Bar>>, stream: seq<Message>) {
    && |states| == |stream| + 1 && (forall id :: states[0](id) == None)
    && forall k :: 0 <= k < |stream| ==> Advances(states[k], states[k + 1], stream[k])
  }

  lemma HistoryIs(stream: seq<Message>)
    ensures IsHistory(History(stream), stream)
  {
    forall k | 0 <= k < |stream| ensures Advances(Layers(stream[..k]), Layers(stream[..k + 1]), stream[k]) {
      assert stream[..k + 1] == stream[..k] + [stream[k]];
      forall id {
        OwnStep(stream[..k], stream[k], id);
      }
    }
  }

  class ProgressBar {
    var n: int
    var isDone: bool
    var description: string
    var closes: nat

    function View(): Bar
      reads this
    {
      Bar(n, isDone, description)
    }

    constructor (m: Message)
      requires m.total > 0
      ensures View() == NewBar(m) && closes == 0
    {
      n, isDone, description, closes := 0, false, Describe(m), 0;
    }

    method Close()
      modifies this`closes
      ensures closes == old(closes) + 1
    {
      closes := closes + 1;
    }

    method Update(m: Message)
      modifies this`n, this`isDone, this`description
      ensures View() == Updated(old(View()), m)
    {
      if m.total == 0 {
        description := Describe(m);
        return;
      }
      if isDone {
        return;
      }
      n := n + (m.current - n);
      if n == m.total {
        isDone := true;
      }
    }
  }

  /** The bars in a dictionary are those of the layers that have one, each its own
      object and not closed. */
  ghost predicate Shown(bars: map<string, ProgressBar>, layers: string -> Option<Bar>)
    reads set id | id in bars :: bars[id]
  {
    && (forall id :: id in bars <==> layers(id).Some?)
    && (forall id :: id in bars ==> Some(bars[id].View()) == layers(id) && bars[id].closes == 0)
    && (forall i, j :: i in bars && j in bars && i != j ==> bars[i] != bars[j])
  }

  /** A message that starts a bar with a negative total fails the constructor. */
  predicate Fails(before: string -> Option<Bar>, m: Message) {
    m.total < 0 && before(m.id).None?
  }

  /** The body of the loop in `show_progress_bars`. */
  method Show(bars: map<string, ProgressBar>, pp: Message,
              ghost before: string -> Option<Bar>, ghost after: string -> Option<Bar>)
    returns (failed: bool, bars': map<string, ProgressBar>)
    requires Shown(bars, before) && Advances(before, after, pp)
    modifies set id | id in bars :: bars[id]
    ensures failed <==> Fails(before, pp)
    ensures failed ==> bars' == bars && Shown(bars, before)
    ensures !failed ==> Shown(bars', after)
    ensures forall id :: id in bars' ==> (id in bars && bars'[id] == bars[id]) || fresh(bars'[id])
  {
    failed, bars' := false, bars;
    if pp.id !in bars {
      if pp.total < 0 {
        failed := true;
        return;
      }
      // First item must have a total.
      if pp.total == 0 {
        return;
      }
      var bar := new ProgressBar(pp);
      bars' := bars[pp.id := bar];
    }
    bars'[pp.id].Update(pp);
  }

  /** The `finally` block. */
  method CloseAll(bars: map<string, ProgressBar>)
    requires forall i, j :: i in bars && j in bars && i != j ==> bars[i] != bars[j]
    modifies set id | id in bars :: bars[id]`closes
    ensures forall id :: id in bars ==> bars[id].closes == old(bars[id].closes) + 1
  {
    var todo := bars.Keys;
    while todo != {}
      invariant todo <= bars.Keys
      invariant forall id :: id in bars ==> bars[id].closes == old(bars[id].closes) + (if id in todo then 0 else 1)
      decreases todo
    {
      ghost var some := Pick(todo);
      var id :| id in todo;
      bars[id].Close();
      todo := todo - {id};
    }
  }

  /** The loop of `show_progress_bars`, up to the end of the stream or a message
      that fails. */
  method ShowAll(stream: seq<Message>, ghost states: seq<string -> Option<Bar>>)
    returns (bars: map<string, ProgressBar>, seen: nat)
    requires IsHistory(states, stream)
    ensures seen <= |stream| && Shown(bars, states[seen])
    ensures forall id :: id in bars ==> fresh(bars[id])
    ensures forall k :: 0 <= k < seen ==> !Fails(states[k], stream[k])
    ensures seen < |stream| ==> Fails(states[seen], stream[seen])
  {
    bars, seen := map[], 0;
    while seen < |stream|
      invariant seen <= |stream| && Shown(bars, states[seen])
      invariant forall id :: id in bars ==> fresh(bars[id])
      invariant forall k :: 0 <= k < seen ==> !Fails(states[k], stream[k])
    {
      var failed;
      failed, bars := Show(bars, stream[seen], states[seen], states[seen + 1]);
      if failed {
        return;
      }
      seen := seen + 1;
    }
  }

  /** What `show_progress_bars` returns or raises. */
  function ResultOf(ending: Ending, failed: bool): ShowResult {
    if failed then AssertionFailed
    else match ending
      case Exhausted => NoResult
      case RpcError(details) => Unknown(details)
      case OtherError => Propagated
  }

  /** `show_progress_bars`: whatever the interleaving and however the stream
      ends, each bar is in the state its own layer's messages give, and has been
      closed exactly once. Only a first message with a negative total stops it
      early; `seen` messages were taken. */
  method ShowProgressBars(stream: seq<Message>, ending: Ending)
    returns (r: ShowResult, bars: map<string, ProgressBar>, ghost seen: nat)
    ensures seen <= |stream| && (seen < |stream| ==> Fails(Layers(stream[..seen]), stream[seen]))
    ensures forall k :: 0 <= k < seen ==> !Fails(Layers(stream[..k]), stream[k])
    ensures forall id :: id in bars <==> BarOf(Own(id, stream[..seen])).Some?
    ensures forall id :: id in bars ==> Some(bars[id].View()) == BarOf(Own(id, stream[..seen]))
    ensures forall id :: id in bars ==> fresh(bars[id]) && bars[id].closes == 1
    ensures r == AssertionFailed <==> seen < |stream|
    ensures seen == |stream| && ending.Exhausted? ==> r == NoResult
    ensures seen == |stream| && ending.RpcError? ==> r == Unknown(ending.details)
    ensures seen == |stream| && ending.OtherError? ==> r == Propagated
  {
    var taken;
    HistoryIs(stream);
    bars, taken := ShowAll(stream, History(stream));
    seen := taken;
    CloseAll(bars);
    r := ResultOf(ending, taken < |stream|);
  }

  // ------------------------------------------------------- text and count

  /** The text is that of the layer's last message without a total, if one came
      after the first with a total; and of that first one otherwise. */
  lemma {:induction false} TextOf(own: seq<Message>, first: nat, k: nat)
    requires first <= k < |own| && own[first].total != 0 && (k > first ==> own[k].total == 0)
    requires forall i :: 0 <= i < first ==> own[i].total == 0
    requires forall i :: k < i < |own| ==> own[i].total != 0
    ensures BarOf(own).Some? && BarOf(own).value.description == own[k].status + " layer " + own[k].id
  {
    var init := own[..|own| - 1];
    BarExistsIff(init);
    if |own| - 1 > k {
      TextOf(init, first, k);
    } else if k > first {
      assert init[first].total != 0;
    }
  }

  /** A message that completes its layer. */
  predicate Complete(m: Message) {
    m.total != 0 && m.current == m.total
  }

  /** A layer has a bar exactly if one of its messages has a total. */
  lemma {:induction false} BarExistsIff(own: seq<Message>)
    ensures BarOf(own).Some? <==> exists k :: 0 <= k < |own| && own[k].total != 0
  {
    if own != [] {
      var init := own[..|own| - 1];
      BarExistsIff(init);
      if k :| 0 <= k < |init| && init[k].total != 0 {
        assert own[k].total != 0;
      }
    }
  }

  /** The count is `current` of the first complete message: later ones do not
      move the bar. */
  lemma {:induction false} CountOfCompleted(own: seq<Message>, k: nat)
    requires k < |own| && Complete(own[k])
    requires forall i :: 0 <= i < k ==> !Complete(own[i])
    ensures BarOf(own).Some? && BarOf(own).value.isDone && BarOf(own).value.n == own[k].current
  {
    var init := own[..|own| - 1];
    if k < |own| - 1 {
      CountOfCompleted(init, k);
    } else {
      NotDone(init);
    }
  }

  /** Until then it is `current` of the last message that has a total. */
  lemma {:induction false} CountOfRunning(own: seq<Message>, k: nat)
    requires k < |own| && own[k].total != 0
    requires forall i :: k < i < |own| ==> own[i].total == 0
    requires forall i :: 0 <= i < |own| ==> !Complete(own[i])
    ensures BarOf(own).Some? && !BarOf(own).value.isDone && BarOf(own).value.n == own[k].current
  {
    var init := own[..|own| - 1];
    if k < |own| - 1 {
      CountOfRunning(init, k);
    } else {
      NotDone(init);
    }
  }

  lemma {:induction false} NotDone(own: seq<Message>)
    requires forall i :: 0 <= i < |own| ==> !Complete(own[i])
    ensures BarOf(own).Some? ==> !BarOf(own).value.isDone
  {
    if own != [] {
      NotDone(own[..|own| - 1]);
    }
  }
}
