/** Remote execution: the partial-write loop, the fold over the response stream
    and the accumulated outputs of rx/worker/executor.py and
    rx/client/output_handler.py. */
module Execution {
  import opened Prelude
  import opened ConnectionObject

  // ---------------------------------------------------------------- sinks

  datatype FlushResult = FlushOk | FlushAgain | FlushRaised

  /** What one `sink.write` followed by `sink.flush` does. A write that fails
      with EAGAIN has accepted nothing. */
  datatype WriteResult =
    | Wrote(count: nat, flush: FlushResult)
    | WriteAgain
    | WriteRaised

  /** The outcome moves the loop on: some bytes, or an error it does not retry. */
  predicate Progresses(r: WriteResult) {
    r.WriteRaised? || (r.Wrote? && (r.count > 0 || r.flush.FlushRaised?))
  }

  /** The error is not one that the loop retries. */
  predicate Raises(r: WriteResult) {
    r.WriteRaised? || (r.Wrote? && r.flush.FlushRaised?)
  }

  function Min(a: nat, b: nat): nat {
    if a < b then a else b
  }

  /** The bytes a sink takes of so many offered to it. */
  function Taken(r: WriteResult, offered: nat): nat {
    if r.Wrote? then Min(r.count, offered) else 0
  }

  /** Some write of the script from one position to before another raises. */
  ghost predicate RaisesIn(script: nat -> WriteResult, from: nat, to: nat) {
    exists k: nat :: from <= k < to && Raises(script(k))
  }

  /** The bytes a sink is ready to take in these writes. */
  function Accepted(script: nat -> WriteResult, from: nat, to: nat): nat
    decreases to
  {
    if to <= from then 0
    else Accepted(script, from, to - 1) + (if script(to - 1).Wrote? then script(to - 1).count else 0)
  }

  /** Before the last write between two positions, and so before each of them,
      there was still something to write and no write had raised. */
  ghost predicate Unfinished(script: nat -> WriteResult, from: nat, to: nat, size: nat) {
    from < to ==> !RaisesIn(script, from, to - 1) && Accepted(script, from, to - 1) < size
  }

  lemma RaisesInJoin(script: nat -> WriteResult, from: nat, mid: nat, to: nat)
    requires from <= mid <= to
    ensures RaisesIn(script, from, to) <==> RaisesIn(script, from, mid) || RaisesIn(script, mid, to)
  {
  }

  /** The writes between two positions, none before the last of which raised or
      came to the end, have taken so many of `size` bytes. */
  ghost predicate TookBy(script: nat -> WriteResult, from: nat, to: nat, size: nat, count: nat) {
    from <= to && Unfinished(script, from, to, size) && count == Min(size, Accepted(script, from, to))
  }

  lemma OneMoreWrite(script: nat -> WriteResult, from: nat, to: nat, size: nat, count: nat)
    requires TookBy(script, from, to, size, count) && count < size && !RaisesIn(script, from, to)
    ensures TookBy(script, from, to + 1, size, count + Taken(script(to), size - count))
    ensures RaisesIn(script, from, to + 1) <==> Raises(script(to))
  {
    if Raises(script(to)) {
      assert RaisesIn(script, from, to + 1);
    }
  }

  /** stdout or stderr. The script says what each write in turn will do; after
      `quiet` writes the descriptor no longer stalls. */
  class Sink {
    const script: nat -> WriteResult
    ghost const quiet: nat
    var pos: nat
    var received: seq<Byte>

    ghost predicate Valid()
    {
      forall i: nat :: i >= quiet ==> Progresses(script(i))
    }

    constructor (script: nat -> WriteResult, ghost quiet: nat)
      requires forall i: nat :: i >= quiet ==> Progresses(script(i))
      ensures Valid() && received == [] && pos == 0 && this.script == script && this.quiet == quiet
    {
      this.script, this.quiet := script, quiet;
      pos, received := 0, [];
    }

    method Write(data: Frame) returns (r: WriteResult)
      modifies this`pos, this`received
      ensures r == script(old(pos)) && pos == old(pos) + 1
      ensures received == old(received) + data[..Taken(r, |data|)]
    {
      r := script(pos);
      pos := pos + 1;
      if r.Wrote? {
        received := received + data[..Min(r.count, |data|)];
      }
    }
  }

  lemma TakeMore(before: seq<Byte>, buf: Frame, count: nat, n: nat)
    requires count <= |buf| && n <= |buf| - count
    ensures (before + buf[..count]) + buf[count..][..n] == before + buf[..count + n]
  {
    assert buf[..count] + buf[count..][..n] == buf[..count + n];
  }

  /** The body of the loop in `write`: the bytes written, and whether this raises. */
  method WriteOnce(sink: Sink, rest: Frame) returns (raised: bool, n: nat)
    modifies sink`pos, sink`received
    ensures sink.pos == old(sink.pos) + 1
    ensures n == Taken(sink.script(old(sink.pos)), |rest|) && sink.received == old(sink.received) + rest[..n]
    ensures raised == Raises(sink.script(old(sink.pos)))
  {
    var r := sink.Write(rest);
    n := if r.Wrote? then Min(r.count, |rest|) else 0;
    raised := r.WriteRaised? || (r.Wrote? && r.flush.FlushRaised?);
  }

  /** `Executor.write`: at each loop head the sink has exactly `buf[:written]`,
      and exactly `buf` at the end. It raises exactly if a write it made does; it
      makes no write after that or after the last byte, and loses none of the
      bytes the sink took. It terminates because the sink stalls only finitely
      often. */
  method Write(sink: Sink, buf: Frame) returns (raised: bool, ghost written: nat)
    requires sink.Valid()
    modifies sink`pos, sink`received
    ensures written <= |buf| && sink.received == old(sink.received) + buf[..written]
    ensures !raised ==> written == |buf|
    ensures raised <==> RaisesIn(sink.script, old(sink.pos), sink.pos)
    ensures TookBy(sink.script, old(sink.pos), sink.pos, |buf|, written)
  {
    raised, written := false, 0;
    if buf == [] {
      return;
    }
    ghost var start := sink.pos;
    var count := 0;
    while count < |buf|
      invariant written == count <= |buf|
      invariant sink.received == old(sink.received) + buf[..count]
      invariant TookBy(sink.script, start, sink.pos, |buf|, count) && !RaisesIn(sink.script, start, sink.pos)
      decreases if sink.pos < sink.quiet then sink.quiet - sink.pos else 0, |buf| - count
    {
      OneMoreWrite(sink.script, start, sink.pos, |buf|, count);
      TakeMore(old(sink.received), buf, count, Taken(sink.script(sink.pos), |buf| - count));
      var n;
      raised, n := WriteOnce(sink, buf[count..]);
      count := count + n;
      written := count;
      if raised {
        return;
      }
    }
    assert buf[..|buf|] == buf;
  }

  /** A loop that goes on where the last write stopped. */
  function Resumed(buf: Frame, counts: seq<nat>): seq<Byte> {
    if counts == [] then []
    else
      var taken := Min(counts[0], |buf|);
      buf[..taken] + Resumed(buf[taken..], counts[1..])
  }

  /** Going on where the last write stopped is exact for every buffer and every
      sequence of short writes, where starting over is exact only for buffers of
      one byte (`ConnectionObject.AlwaysExactIff`). */
  lemma {:induction false} ResumedIsExact(buf: Frame, counts: seq<nat>)
    requires Fits(|buf|, counts)
    ensures Resumed(buf, counts) == buf
    decreases |counts|
  {
    if counts != [] {
      var taken := Min(counts[0], |buf|);
      assert buf[..taken] + buf[taken..] == buf;
      if counts[0] < |buf| {
        ResumedIsExact(buf[taken..], counts[1..]);
      }
    }
  }

  // -------------------------------------------------------------- outputs

  /** `OutputHandler`; `toPath` is how a path string is normalised. */
  class OutputHandler<Path(==)> {
    const toPath: string -> Path
    var currentOutputs: set<Path>

    constructor (toPath: string -> Path)
      ensures this.toPath == toPath && currentOutputs == {}
    {
      this.toPath, currentOutputs := toPath, {};
    }

    method Handle(files: seq<string>)
      modifies this`currentOutputs
      ensures currentOutputs == old(currentOutputs) + set f | f in files :: toPath(f)
    {
      for i := 0 to |files|
        invariant currentOutputs == old(currentOutputs) + set f | f in files[..i] :: toPath(f)
      {
        assert files[..i + 1] == files[..i] + [files[i]];
        currentOutputs := currentOutputs + {toPath(files[i])};
      }
      assert files[..|files|] == files;
    }
  }

  // ------------------------------------------------------ the response fold

  datatype ExecResponse = ExecResponse(
    executionId: string, stdout: Frame, stderr: Frame, outputFiles: seq<string>, exitCode: int)

  /** How the response stream ends: normally or with an exception. */
  datatype Ending = Exhausted | Broken

  datatype RunResult = Returned(response: ExecResponse) | NoResponse | StreamRaised | OutputRaised

  function StdoutOf(rs: seq<ExecResponse>): seq<Byte> {
    if rs == [] then [] else StdoutOf(rs[..|rs| - 1]) + rs[|rs| - 1].stdout
  }

  function StderrOf(rs: seq<ExecResponse>): seq<Byte> {
    if rs == [] then [] else StderrOf(rs[..|rs| - 1]) + rs[|rs| - 1].stderr
  }

  function Stdouts(rs: seq<ExecResponse>): seq<Frame> {
    seq(|rs|, i requires 0 <= i < |rs| => rs[i].stdout)
  }

  function Stderrs(rs: seq<ExecResponse>): seq<Frame> {
    seq(|rs|, i requires 0 <= i < |rs| => rs[i].stderr)
  }

  /** Each stream gets its own chunks, all of them, in the order of the responses. */
  lemma {:induction false} ChunksInOrder(rs: seq<ExecResponse>)
    ensures StdoutOf(rs) == Flatten(Stdouts(rs)) && StderrOf(rs) == Flatten(Stderrs(rs))
  {
    if rs != [] {
      var init, last := rs[..|rs| - 1], rs[|rs| - 1];
      ChunksInOrder(init);
      assert Stdouts(rs) == Stdouts(init) + [last.stdout] && Stderrs(rs) == Stderrs(init) + [last.stderr];
      FlattenSnoc(Stdouts(init), last.stdout);
      FlattenSnoc(Stderrs(init), last.stderr);
    }
  }

  function FilesOf(rs: seq<ExecResponse>): set<string> {
    set i, f | 0 <= i < |rs| && f in rs[i].outputFiles :: f
  }

  function PathsOf<P(==)>(toPath: string -> P, rs: seq<ExecResponse>): set<P> {
    set f | f in FilesOf(rs) :: toPath(f)
  }

  lemma PathsInOrder<P>(toPath: string -> P, rs: seq<ExecResponse>)
    ensures PathsOf(toPath, rs) == set i, f | 0 <= i < |rs| && f in rs[i].outputFiles :: toPath(f)
  {
  }

  /** The execution id after these responses. */
  function IdAfter(start: Option<string>, rs: seq<ExecResponse>): Option<string> {
    if rs == [] then start
    else if rs[|rs| - 1].executionId != "" then Some(rs[|rs| - 1].executionId)
    else IdAfter(start, rs[..|rs| - 1])
  }

  /** The last non-empty id wins; with none the old one stays. */
  lemma {:induction false} IdAfterIsLast(start: Option<string>, rs: seq<ExecResponse>, k: nat)
    requires k < |rs| && rs[k].executionId != ""
    requires forall i :: k < i < |rs| ==> rs[i].executionId == ""
    ensures IdAfter(start, rs) == Some(rs[k].executionId)
  {
    if k < |rs| - 1 {
      IdAfterIsLast(start, rs[..|rs| - 1], k);
    }
  }

  lemma {:induction false} IdAfterKeeps(start: Option<string>, rs: seq<ExecResponse>)
    requires forall i :: 0 <= i < |rs| ==> rs[i].executionId == ""
    ensures IdAfter(start, rs) == start
  {
    if rs != [] {
      IdAfterKeeps(start, rs[..|rs| - 1]);
    }
  }

  lemma PathsSnoc<P>(toPath: string -> P, rs: seq<ExecResponse>, r: ExecResponse)
    ensures PathsOf(toPath, rs + [r]) == PathsOf(toPath, rs) + set f | f in r.outputFiles :: toPath(f)
  {
    var all := rs + [r];
    forall f ensures f in FilesOf(all) <==> f in FilesOf(rs) || f in r.outputFiles {
      if f in FilesOf(rs) {
        var i :| 0 <= i < |rs| && f in rs[i].outputFiles;
        assert f in all[i].outputFiles;
      }
      if f in r.outputFiles {
        assert f in all[|rs|].outputFiles;
      }
    }
  }

  lemma PrefixStep(start: seq<Byte>, before: seq<Byte>, chunk: Frame, n: nat)
    requires n <= |chunk|
    ensures start + before <= start + before + chunk[..n] <= start + (before + chunk)
    ensures n == |chunk| ==> start + before + chunk[..n] == start + (before + chunk)
  {
    if n == |chunk| {
      assert chunk[..n] == chunk;
    }
  }

  /** What a run can change. */
  datatype Effects<P> = Effects(id: Option<string>, out: seq<Byte>, err: seq<Byte>, paths: set<P>)

  /** The effects of handling these responses completely. */
  function Folded<P(==)>(start: Effects<P>, toPath: string -> P, rs: seq<ExecResponse>): Effects<P> {
    Effects(IdAfter(start.id, rs),
            start.out + StdoutOf(rs),
            start.err + StderrOf(rs),
            start.paths + PathsOf(toPath, rs))
  }

  /** The effects of one more response of which `out` and `err` bytes got through. */
  function Consumed<P(==)>(
    e: Effects<P>, toPath: string -> P, r: ExecResponse, out: nat, err: nat, raised: bool): Effects<P>
    requires out <= |r.stdout| && err <= |r.stderr|
  {
    Effects(if r.executionId != "" then Some(r.executionId) else e.id,
            e.out + r.stdout[..out],
            e.err + r.stderr[..err],
            e.paths + (if raised then {} else set f | f in r.outputFiles :: toPath(f)))
  }

  /** A run that stopped inside a response: outputs and paths of the responses
      before it, a prefix of its chunks, and its id; nothing of its stderr is out
      before all of its stdout. */
  predicate Torn<P>(e: Effects<P>, start: Effects<P>, toPath: string -> P, rs: seq<ExecResponse>, r: ExecResponse) {
    && e.id == IdAfter(start.id, rs + [r])
    && e.paths == start.paths + PathsOf(toPath, rs)
    && start.out + StdoutOf(rs) <= e.out <= start.out + StdoutOf(rs + [r])
    && start.err + StderrOf(rs) <= e.err <= start.err + StderrOf(rs + [r])
    && (e.out == start.out + StdoutOf(rs + [r]) || e.err == start.err + StderrOf(rs))
  }

  lemma FoldNothing<P>(start: Effects<P>, toPath: string -> P)
    ensures Folded(start, toPath, []) == start
  {
    assert PathsOf(toPath, []) == {};
  }

  lemma FoldStep<P>(start: Effects<P>, toPath: string -> P, rs: seq<ExecResponse>, r: ExecResponse, out: nat, err: nat)
    requires out <= |r.stdout| && err <= |r.stderr|
    ensures out == |r.stdout| && err == |r.stderr| ==>
              Consumed(Folded(start, toPath, rs), toPath, r, out, err, false) == Folded(start, toPath, rs + [r])
    ensures out == |r.stdout| || err == 0 ==>
              Torn(Consumed(Folded(start, toPath, rs), toPath, r, out, err, true), start, toPath, rs, r)
  {
    assert (rs + [r])[..|rs|] == rs;
    PathsSnoc(toPath, rs, r);
    PrefixStep(start.out, StdoutOf(rs), r.stdout, out);
    PrefixStep(start.err, StderrOf(rs), r.stderr, err);
  }

  /** The effects of the next response of a stream. */
  lemma FoldNext<P>(start: Effects<P>, toPath: string -> P, stream: seq<ExecResponse>, i: nat,
                    out: nat, err: nat, raised: bool)
    requires i < |stream| && out <= |stream[i].stdout| && err <= |stream[i].stderr|
    requires if raised then out == |stream[i].stdout| || err == 0
             else out == |stream[i].stdout| && err == |stream[i].stderr|
    ensures
      var after := Consumed(Folded(start, toPath, stream[..i]), toPath, stream[i], out, err, raised);
      if raised then Torn(after, start, toPath, stream[..i], stream[i])
      else after == Folded(start, toPath, stream[..i + 1])
  {
    FoldStep(start, toPath, stream[..i], stream[i], out, err);
    assert stream[..i + 1] == stream[..i] + [stream[i]];
  }

  class Executor {
    var executionId: Option<string>

    constructor ()
      ensures executionId == None
    {
      executionId := None;
    }

    ghost function View<P>(stdout: Sink, stderr: Sink, handler: OutputHandler<P>): Effects<P>
      reads this, stdout, stderr, handler
    {
      Effects(executionId, stdout.received, stderr.received, handler.currentOutputs)
    }

    /** A write to one of the two sinks raised since these positions. */
    ghost predicate OutputFails(stdout: Sink, fromOut: nat, stderr: Sink, fromErr: nat)
      reads stdout, stderr
    {
      RaisesIn(stdout.script, fromOut, stdout.pos) || RaisesIn(stderr.script, fromErr, stderr.pos)
    }

    /** The body of the loop in `run`. A failing write stops it; `out` and `err`
        count the bytes of this response that got through. */
    method Consume<P>(response: ExecResponse, stdout: Sink, stderr: Sink, handler: OutputHandler<P>)
      returns (raised: bool, ghost out: nat, ghost err: nat)
      requires stdout != stderr && stdout.Valid() && stderr.Valid()
      modifies this, stdout`pos, stdout`received, stderr`pos, stderr`received, handler`currentOutputs
      ensures out <= |response.stdout| && err <= |response.stderr|
      ensures !raised ==> out == |response.stdout| && err == |response.stderr|
      ensures out < |response.stdout| ==> err == 0
      ensures old(stdout.pos) <= stdout.pos && old(stderr.pos) <= stderr.pos
      ensures raised <==> OutputFails(stdout, old(stdout.pos), stderr, old(stderr.pos))
      ensures View(stdout, stderr, handler) ==
                Consumed(old(View(stdout, stderr, handler)), handler.toPath, response, out, err, raised)
    {
      if response.executionId != "" {
        executionId := Some(response.executionId);
      }
      err := 0;
      raised, out := Write(stdout, response.stdout);
      if raised {
        return;
      }
      raised, err := Write(stderr, response.stderr);
      if raised {
        return;
      }
      handler.Handle(response.outputFiles);
    }

    /** The loop in `run`. `handled` counts the responses handled completely. */
    method ConsumeAll<P>(stream: seq<ExecResponse>, stdout: Sink, stderr: Sink, handler: OutputHandler<P>)
      returns (raised: bool, ghost handled: nat)
      requires stdout != stderr && stdout.Valid() && stderr.Valid()
      modifies this, stdout`pos, stdout`received, stderr`pos, stderr`received, handler`currentOutputs
      ensures !raised ==> handled == |stream|
      ensures raised <==> OutputFails(stdout, old(stdout.pos), stderr, old(stderr.pos))
      ensures !raised ==>
                View(stdout, stderr, handler) == Folded(old(View(stdout, stderr, handler)), handler.toPath, stream)
      ensures raised ==>
                && handled < |stream|
                && Torn(View(stdout, stderr, handler), old(View(stdout, stderr, handler)), handler.toPath,
                        stream[..handled], stream[handled])
    {
      ghost var start := View(stdout, stderr, handler);
      raised, handled := false, 0;
      FoldNothing(start, handler.toPath);
      assert stream[..0] == [];
      for i := 0 to |stream|
        invariant handled == i && !raised
        invariant old(stdout.pos) <= stdout.pos && old(stderr.pos) <= stderr.pos
        invariant !OutputFails(stdout, old(stdout.pos), stderr, old(stderr.pos))
        invariant View(stdout, stderr, handler) == Folded(start, handler.toPath, stream[..i])
      {
        ghost var outPos, errPos := stdout.pos, stderr.pos;
        ghost var out, err;
        raised, out, err := Consume(stream[i], stdout, stderr, handler);
        RaisesInJoin(stdout.script, old(stdout.pos), outPos, stdout.pos);
        RaisesInJoin(stderr.script, old(stderr.pos), errPos, stderr.pos);
        FoldNext(start, handler.toPath, stream, i, out, err, raised);
        if raised {
          return;
        }
        handled := i + 1;
      }
      assert stream[..|stream|] == stream;
    }

    /** `Executor.run` on the responses the stream yields before it ends. */
    method Run<P>(stream: seq<ExecResponse>, ending: Ending, stdout: Sink, stderr: Sink, handler: OutputHandler<P>)
      returns (r: RunResult, ghost handled: nat)
      requires stdout != stderr && stdout.Valid() && stderr.Valid()
      modifies this, stdout`pos, stdout`received, stderr`pos, stderr`received, handler`currentOutputs
      ensures r.OutputRaised? <==> OutputFails(stdout, old(stdout.pos), stderr, old(stderr.pos))
      ensures !r.OutputRaised? ==>
                View(stdout, stderr, handler) == Folded(old(View(stdout, stderr, handler)), handler.toPath, stream)
      ensures !r.OutputRaised? ==>
                && executionId == IdAfter(old(executionId), stream)
                && stdout.received == old(stdout.received) + Flatten(Stdouts(stream))
                && stderr.received == old(stderr.received) + Flatten(Stderrs(stream))
                && handler.currentOutputs == old(handler.currentOutputs)
                     + set i, f | 0 <= i < |stream| && f in stream[i].outputFiles :: handler.toPath(f)
      ensures r.Returned? ==> ending.Exhausted? && stream != [] && r.response == stream[|stream| - 1]
      ensures r.NoResponse? ==> ending.Exhausted? && stream == []
      ensures r.StreamRaised? ==> ending.Broken?
      ensures r.OutputRaised? ==>
                && handled < |stream|
                && Torn(View(stdout, stderr, handler), old(View(stdout, stderr, handler)), handler.toPath,
                        stream[..handled], stream[handled])
    {
      ChunksInOrder(stream);
      PathsInOrder(handler.toPath, stream);
      var raised;
      raised, handled := ConsumeAll(stream, stdout, stderr, handler);
      r := if raised then OutputRaised
           else if ending.Broken? then StreamRaised
           else if |stream| == 0 then NoResponse
           else Returned(stream[|stream| - 1]);
    }
  }
}
