/**
  The end-of-stream / start-of-stream handshake of src/byteQueueC.c (and the same code in
  src/byteQueue.cpp) between one writer and one reader.

  A stretch of code under the mutex is one step. What a write or a read does to the queue is
  what ByteRing.Ring.WriteData and ByteRing.Ring.Drain are proved to do. Both waits stand in
  loops, so a sleeper may also wake up at any time without a broadcast. `log` records what
  the two sides did; the C code keeps no such record.
 */
module ByteStream {
  import opened ByteRing

  datatype Event =
    | Started                                       // byteQueue_writeStartOfStream returned
    | Wrote(bytes: seq<byte>, offered: seq<byte>)   // byteQueue_writeData took these bytes of those offered
    | Ended                                         // byteQueue_writeEndOfStream, not a repeated one
    | Got(bytes: seq<byte>, request: nat)           // ByteQueue_readData returned

  /** A read that returned less than was asked for. */
  predicate Short(e: Event) { e.Got? && |e.bytes| < e.request }

  datatype Writer = WriterIdle | Starting(asleep: bool)

  datatype Reader = ReaderIdle | Reading(request: nat, got: seq<byte>, asleep: bool)

  datatype State = State(size: nat, queue: seq<byte>, endOfStream: bool, reported: bool,
                         writer: Writer, reader: Reader, failed: bool, log: seq<Event>)

  datatype Action =
    | Write(data: seq<byte>) | End | Start | StartStep
    | Read(request: nat) | ReadStep | WakeWriter | WakeReader

  ghost predicate Init(s: State) {
    && s.size > 0 && s.queue == [] && s.endOfStream && !s.reported && !s.failed
    && s.writer == WriterIdle && s.reader == ReaderIdle && s.log == []
  }

  /** What the callers may do: data is written only inside a stream, a stream is started only
      outside one (both asserted by the code), and a read asks for something. */
  predicate Can(s: State, a: Action) {
    match a
    case Write(_) => s.writer == WriterIdle && !s.endOfStream
    case End => s.writer == WriterIdle
    case Start => s.writer == WriterIdle && s.endOfStream
    case StartStep => s.writer == Starting(false)
    case Read(request) => s.reader == ReaderIdle && request > 0
    case ReadStep => s.reader.Reading? && !s.reader.asleep
    case WakeWriter => s.writer.Starting?
    case WakeReader => s.reader.Reading?
  }

  function Broadcast(s: State): State {
    s.(writer := if s.writer.Starting? then Starting(false) else s.writer,
       reader := if s.reader.Reading? then s.reader.(asleep := false) else s.reader)
  }

  function Log(s: State, e: Event): State { s.(log := s.log + [e]) }

  function Assert(s: State, ok: bool): (s': State)
    ensures s'.failed <==> s.failed || !ok
  {
    s.(failed := s.failed || !ok)
  }

  function Room(s: State): nat { if |s.queue| <= s.size then s.size - |s.queue| else 0 }

  function DoWrite(s: State, data: seq<byte>): State {
    var taken := Fitting(Room(s), data);
    var s1 := Log(s.(queue := s.queue + taken), Wrote(taken, data));
    if s.queue == [] && data != [] then Broadcast(s1) else s1
  }

  function DoEnd(s: State): State {
    if s.endOfStream then s
    else Broadcast(Log(s.(endOfStream := true, reported := false), Ended))
  }

  function DoStartStep(s: State): State
    requires s.writer.Starting?
  {
    if !s.reported then s.(writer := Starting(true))
    else Log(s.(endOfStream := false, writer := WriterIdle), Started)
  }

  /** Lines 272-342, from one wait to the next. */
  function DoReadStep(s: State): State
    requires s.reader.Reading?
  {
    var want := if |s.reader.got| <= s.reader.request then s.reader.request - |s.reader.got| else 0;
    var n := Min(want, |s.queue|);
    var got := s.reader.got + s.queue[..n];
    var s1 := s.(queue := s.queue[n..]);
    if n == want then Log(s1.(reader := ReaderIdle), Got(got, s.reader.request))
    else if s1.endOfStream && !s1.reported
    then Broadcast(Log(Assert(s1, s1.endOfStream).(reader := ReaderIdle, reported := true),
                       Got(got, s.reader.request)))
    else s1.(reader := Reading(s.reader.request, got, true))
  }

  function Do(s: State, a: Action): State
    requires Can(s, a)
  {
    match a
    case Write(data) => DoWrite(s, data)
    case End => DoEnd(s)
    case Start => Assert(s, s.endOfStream).(writer := Starting(false))
    case StartStep => DoStartStep(s)
    case Read(request) => s.(reader := Reading(request, [], false))
    case ReadStep => DoReadStep(s)
    case WakeWriter => s.(writer := Starting(false))
    case WakeReader => s.(reader := s.reader.(asleep := false))
  }

  ghost predicate Step(s: State, s': State) { exists a :: Can(s, a) && s' == Do(s, a) }

  ghost predicate Run(r: seq<State>) {
    |r| > 0 && Init(r[0]) && forall i :: 0 <= i < |r| - 1 ==> Step(r[i], r[i + 1])
  }

  // ---- what the two sides see -----------------------------------------------------------

  function AddToLast(streams: seq<seq<byte>>, bytes: seq<byte>): (r: seq<seq<byte>>)
    requires streams != []
    ensures |r| == |streams|
  {
    var k := |streams| - 1;
    streams[..k] + [streams[k] + bytes]
  }

  /** The bytes accepted in each stream; stream 0 is the one already ended at creation. */
  function Streams(log: seq<Event>): (r: seq<seq<byte>>)
    ensures r != []
  {
    if log == [] then [[]]
    else
      var r := Streams(log[..|log| - 1]);
      match log[|log| - 1]
      case Started => r + [[]]
      case Wrote(bytes, _) => AddToLast(r, bytes)
      case Ended => r
      case Got(_, _) => r
  }

  /** The bytes returned by reads, cut after every short read. */
  function Reads(log: seq<Event>): (r: seq<seq<byte>>)
    ensures r != []
  {
    if log == [] then [[]]
    else
      var r := Reads(log[..|log| - 1]);
      match log[|log| - 1]
      case Got(bytes, request) =>
        if |bytes| < request then AddToLast(r, bytes) + [[]] else AddToLast(r, bytes)
      case _ => r
  }

  /** How many streams have ended, the initial one included. */
  function EndCount(log: seq<Event>): nat {
    if log == [] then 1
    else EndCount(log[..|log| - 1]) + if log[|log| - 1] == Ended then 1 else 0
  }

  function ShortReads(log: seq<Event>): nat { |Reads(log)| - 1 }

  lemma Appended(log: seq<Event>, e: Event)
    ensures (log + [e])[..|log + [e]| - 1] == log && (log + [e])[|log + [e]| - 1] == e
  {}

  // ---- the inductive invariant -------------------------------------------------------

  function Pending(s: State): seq<byte> {
    if s.reader.Reading? then s.reader.got + s.queue else s.queue
  }

  /** Short reads and streams keep step: before the current stream is reported as ended,
      what was read of it, what the running read has got and what is queued make up what was
      accepted; in between streams there is nothing. */
  ghost predicate Flow(w: seq<seq<byte>>, r: seq<seq<byte>>, ends: nat, pending: seq<byte>, ended: bool,
                       reported: bool) {
    && w != [] && r != []
    && (forall i :: 0 <= i < |r| - 1 ==> i < |w| && r[i] == w[i])
    && (if ended && reported
        then |r| == |w| + 1 && r[|w|] == [] && pending == []
        else |r| == |w| && r[|r| - 1] + pending == w[|w| - 1])
    && ends == (if ended then |w| else |w| - 1)
    && (!ended ==> reported)
  }

  ghost predicate FlowInv(s: State) {
    Flow(Streams(s.log), Reads(s.log), EndCount(s.log), Pending(s), s.endOfStream, s.reported)
  }

  /** Nobody sleeps while what he waits for is there. */
  ghost predicate SleepInv(s: State) {
    && (s.writer == Starting(true) ==> !s.reported)
    && (s.reader.Reading? && s.reader.asleep ==>
          s.queue == [] && !(s.endOfStream && !s.reported))
  }

  ghost predicate Inv(s: State) {
    && !s.failed
    && |s.queue| <= s.size && s.size > 0
    && (s.writer.Starting? ==> s.endOfStream)
    && (s.reader.Reading? ==> |s.reader.got| < s.reader.request)
    && FlowInv(s) && SleepInv(s)
  }

  // ---- the flow, step by step ----

  lemma FlowWrites(w: seq<seq<byte>>, r: seq<seq<byte>>, ends: nat, pending: seq<byte>, taken: seq<byte>)
    requires Flow(w, r, ends, pending, false, true)
    ensures Flow(AddToLast(w, taken), r, ends, pending + taken, false, true)
  {
    assert r[|r| - 1] + (pending + taken) == (r[|r| - 1] + pending) + taken;
  }

  lemma FlowStarts(w: seq<seq<byte>>, r: seq<seq<byte>>, ends: nat)
    requires Flow(w, r, ends, [], true, true)
    ensures Flow(w + [[]], r, ends, [], false, true)
  {}

  /** A read of all the request, or the last read of a stream. */
  lemma FlowReads(w: seq<seq<byte>>, r: seq<seq<byte>>, ends: nat, got: seq<byte>, queue: seq<byte>, ended: bool,
                  reported: bool)
    requires Flow(w, r, ends, got + queue, ended, reported) && (ended && reported ==> got == [])
    ensures Flow(w, AddToLast(r, got), ends, queue, ended, reported)
    ensures ended && !reported && queue == [] ==> Flow(w, AddToLast(r, got) + [[]], ends, [], true, true)
  {
    var last := r[|r| - 1];
    assert last + (got + queue) == (last + got) + queue;
  }

  lemma WriteLogged(log: seq<Event>, taken: seq<byte>, data: seq<byte>)
    ensures var log' := log + [Wrote(taken, data)];
            Streams(log') == AddToLast(Streams(log), taken) && Reads(log') == Reads(log)
            && EndCount(log') == EndCount(log)
  {
    Appended(log, Wrote(taken, data));
  }

  lemma EndLogged(log: seq<Event>)
    ensures var log' := log + [Ended];
            Streams(log') == Streams(log) && Reads(log') == Reads(log) && EndCount(log') == EndCount(log) + 1
  {
    Appended(log, Ended);
  }

  lemma StartLogged(log: seq<Event>)
    ensures var log' := log + [Started];
            Streams(log') == Streams(log) + [[]] && Reads(log') == Reads(log) && EndCount(log') == EndCount(log)
  {
    Appended(log, Started);
  }

  lemma WriteKeepsInv(s: State, data: seq<byte>)
    requires Inv(s) && Can(s, Write(data))
    ensures Inv(DoWrite(s, data))
  {
    WriteShape(s, data);
    WriteFlows(s, DoWrite(s, data), Fitting(Room(s), data), data);
  }

  /** A write appends to the queue and the log, and may wake both sides. */
  lemma WriteShape(s: State, data: seq<byte>)
    ensures var s', taken := DoWrite(s, data), Fitting(Room(s), data);
            && s'.log == s.log + [Wrote(taken, data)] && Pending(s') == Pending(s) + taken
            && s'.endOfStream == s.endOfStream && s'.reported == s.reported
  {
    var taken := Fitting(Room(s), data);
    assert s.reader.Reading? ==> s.reader.got + (s.queue + taken) == (s.reader.got + s.queue) + taken;
  }

  lemma WriteFlows(s: State, s': State, taken: seq<byte>, data: seq<byte>)
    requires FlowInv(s) && !s.endOfStream && s'.log == s.log + [Wrote(taken, data)]
    requires Pending(s') == Pending(s) + taken
    requires s'.endOfStream == s.endOfStream && s'.reported == s.reported
    ensures FlowInv(s')
  {
    WriteLogged(s.log, taken, data);
    FlowWrites(Streams(s.log), Reads(s.log), EndCount(s.log), Pending(s), taken);
  }

  lemma EndKeepsInv(s: State)
    requires Inv(s) && Can(s, End)
    ensures Inv(DoEnd(s))
  {
    EndLogged(s.log);
  }

  lemma StartKeepsInv(s: State)
    requires Inv(s) && Can(s, StartStep)
    ensures Inv(DoStartStep(s))
  {
    if s.reported {
      StartLogged(s.log);
      FlowStarts(Streams(s.log), Reads(s.log), EndCount(s.log));
    }
  }

  lemma ReadLogged(log: seq<Event>, bytes: seq<byte>, request: nat)
    ensures var log' := log + [Got(bytes, request)];
            && Streams(log') == Streams(log) && EndCount(log') == EndCount(log)
            && Reads(log') == AddToLast(Reads(log), bytes) + if |bytes| < request then [[]] else []
  {
    Appended(log, Got(bytes, request));
  }

  /** What one read step moves from the queue to the reader. */
  function Taken(s: State): nat
    requires s.reader.Reading? && |s.reader.got| < s.reader.request
  {
    Min(s.reader.request - |s.reader.got|, |s.queue|)
  }

  lemma TakenMoves(s: State)
    requires s.reader.Reading? && |s.reader.got| < s.reader.request
    ensures Pending(s) == (s.reader.got + s.queue[..Taken(s)]) + s.queue[Taken(s)..]
  {
    var n := Taken(s);
    assert s.queue == s.queue[..n] + s.queue[n..];
  }

  lemma FullReadKeepsInv(s: State)
    requires Inv(s) && Can(s, ReadStep) && |s.queue| >= s.reader.request - |s.reader.got|
    ensures Inv(DoReadStep(s))
  {
    var n := Taken(s);
    var got := s.reader.got + s.queue[..n];
    TakenMoves(s);
    ReadLogged(s.log, got, s.reader.request);
    FlowReads(Streams(s.log), Reads(s.log), EndCount(s.log), got, s.queue[n..], s.endOfStream, s.reported);
  }

  lemma ShortReadKeepsInv(s: State)
    requires Inv(s) && Can(s, ReadStep) && |s.queue| < s.reader.request - |s.reader.got|
    requires s.endOfStream && !s.reported
    ensures Inv(DoReadStep(s))
  {
    var got := s.reader.got + s.queue;
    assert s.queue[..|s.queue|] == s.queue && s.queue[|s.queue|..] == [];
    ReadLogged(s.log, got, s.reader.request);
    assert got + [] == got;
    FlowReads(Streams(s.log), Reads(s.log), EndCount(s.log), got, [], true, false);
  }

  lemma SleepKeepsInv(s: State)
    requires Inv(s) && Can(s, ReadStep) && |s.queue| < s.reader.request - |s.reader.got|
    requires !(s.endOfStream && !s.reported)
    ensures Inv(DoReadStep(s))
  {
    TakenMoves(s);
  }

  lemma ReadKeepsInv(s: State)
    requires Inv(s) && Can(s, ReadStep)
    ensures Inv(DoReadStep(s))
  {
    if |s.queue| >= s.reader.request - |s.reader.got| {
      FullReadKeepsInv(s);
    } else if s.endOfStream && !s.reported {
      ShortReadKeepsInv(s);
    } else {
      SleepKeepsInv(s);
    }
  }

  lemma DoKeepsInv(s: State, a: Action)
    requires Inv(s) && Can(s, a)
    ensures Inv(Do(s, a))
  {
    match a
    case Write(data) => WriteKeepsInv(s, data);
    case End => EndKeepsInv(s);
    case Start =>
    case StartStep => StartKeepsInv(s);
    case Read(_) => assert [] + s.queue == s.queue;
    case ReadStep => ReadKeepsInv(s);
    case WakeWriter =>
    case WakeReader =>
  }

  lemma {:induction false} RunKeepsInv(r: seq<State>, i: nat)
    requires Run(r) && i < |r|
    ensures Inv(r[i])
    decreases i
  {
    if i > 0 {
      RunKeepsInv(r, i - 1);
      assert Step(r[i - 1], r[i - 1 + 1]);
      var a :| Can(r[i - 1], a) && r[i] == Do(r[i - 1], a);
      DoKeepsInv(r[i - 1], a);
    }
  }

  // ---- what the invariant gives ------------------------------------------------------

  /** In every run: the reads up to the k-th short read, cut at the short reads, are exactly
      the bytes accepted in streams 0 to k - 1; every end of stream is reported by exactly
      one short read, at most one being still to come; and no assertion fails. */
  lemma StreamsArriveWhole(r: seq<State>, i: nat)
    requires Run(r) && i < |r|
    ensures !r[i].failed
    ensures var log := r[i].log;
            && ShortReads(log) <= EndCount(log) <= |Streams(log)|
            && EndCount(log) == ShortReads(log) + (if r[i].endOfStream && !r[i].reported then 1 else 0)
            && forall k :: 0 <= k < ShortReads(log) ==> Reads(log)[k] == Streams(log)[k]
  {
    RunKeepsInv(r, i);
  }

  /** When reads return, in every run: a read gives no more than was asked for; it gives less only
      if it has emptied the queue and reached an end of stream not reported before, which it
      reports; and it gives what it had got and the oldest bytes of the queue. */
  lemma ReadReturns(r: seq<State>, i: nat)
    requires Run(r) && i + 1 < |r| && |r[i].log| < |r[i + 1].log| && r[i + 1].log[|r[i].log|].Got?
    ensures r[i].reader.Reading?
    ensures var s, s', e := r[i], r[i + 1], r[i + 1].log[|r[i].log|];
            && s'.log == s.log + [e] && s'.reader == ReaderIdle && e.request == s.reader.request
            && |e.bytes| <= e.request && e.bytes + s'.queue == s.reader.got + s.queue
            && (Short(e) ==> s'.queue == [] && s.endOfStream && !s.reported && s'.reported)
            && (!Short(e) ==> s'.reported == s.reported)
  {
    RunKeepsInv(r, i);
    assert Step(r[i], r[i + 1]);
    var a :| Can(r[i], a) && r[i + 1] == Do(r[i], a);
    ReadStepReturns(r[i], a);
  }

  lemma ReadStepReturns(s: State, a: Action)
    requires Inv(s) && Can(s, a)
    ensures a != ReadStep ==> Do(s, a).log <= s.log || (|Do(s, a).log| == |s.log| + 1 && !Do(s, a).log[|s.log|].Got?)
    ensures a == ReadStep ==>
              var s' := Do(s, a);
              || s'.log == s.log
              || (&& |s'.log| == |s.log| + 1 && s'.log[..|s.log|] == s.log && s'.log[|s.log|].Got?
                  && s'.reader == ReaderIdle && s'.log[|s.log|].request == s.reader.request
                  && |s'.log[|s.log|].bytes| <= s.reader.request
                  && s'.log[|s.log|].bytes + s'.queue == s.reader.got + s.queue
                  && (if Short(s'.log[|s.log|]) then s'.queue == [] && s.endOfStream && !s.reported && s'.reported
                      else s'.reported == s.reported))
  {
    if a == ReadStep { TakenMoves(s); }
  }

  /** A read that can step returns at once if the queue has enough for it, or the stream has ended
      and that is not reported yet; otherwise it takes all there is and waits. */
  lemma ReadReturnsIff(s: State)
    requires Inv(s) && Can(s, ReadStep)
    ensures var s' := Do(s, ReadStep);
            && (s'.reader == ReaderIdle <==>
                  |s.reader.got| + |s.queue| >= s.reader.request || (s.endOfStream && !s.reported))
            && (s'.reader != ReaderIdle ==> s'.reader == Reading(s.reader.request, s.reader.got + s.queue, true))
  {
    assert s.queue[..|s.queue|] == s.queue;
  }

  /** Ending a stream ends it, once; starting one waits for the end of the last to be reported, and
      then starts it. */
  lemma StreamMarks(s: State)
    requires Inv(s)
    ensures Can(s, End) ==>
              var s' := Do(s, End);
              s'.endOfStream && EndCount(s'.log) == EndCount(s.log) + if s.endOfStream then 0 else 1
    ensures Can(s, StartStep) ==>
              var s' := Do(s, StartStep);
              && (s'.writer == WriterIdle <==> s.reported)
              && (s.reported ==> !s'.endOfStream && Streams(s'.log) == Streams(s.log) + [[]])
              && (!s.reported ==> s' == s.(writer := Starting(true)))
  {
    EndLogged(s.log);
    StartLogged(s.log);
  }

  /** A write takes all that is offered, or as much as makes the queue full. */
  lemma WriteTakes(s: State, data: seq<byte>)
    requires Inv(s) && Can(s, Write(data))
    ensures var s' := Do(s, Write(data));
            && s.queue <= s'.queue && s'.queue[|s.queue|..] <= data && |s'.queue| <= s.size
            && (s'.queue[|s.queue|..] == data || |s'.queue| == s.size)
            && s'.log == s.log + [Wrote(s'.queue[|s.queue|..], data)]
  {}

  /** The same streams, the last one grown and perhaps new ones after it. */
  ghost predicate Grown(r0: seq<seq<byte>>, r: seq<seq<byte>>) {
    && 0 < |r0| <= |r|
    && (forall k :: 0 <= k < |r0| - 1 ==> r[k] == r0[k])
    && r0[|r0| - 1] <= r[|r0| - 1]
  }

  lemma GrownOneMore(log: seq<Event>)
    requires log != []
    ensures Grown(Reads(log[..|log| - 1]), Reads(log))
  {
    var r := Reads(log[..|log| - 1]);
    match log[|log| - 1]
    case Got(bytes, _) => AddingGrows(r, bytes);
    case _ => assert Reads(log) == r;
  }

  lemma AddingGrows(r: seq<seq<byte>>, bytes: seq<byte>)
    requires r != []
    ensures Grown(r, AddToLast(r, bytes)) && Grown(r, AddToLast(r, bytes) + [[]])
  {}

  lemma GrownTwice(r0: seq<seq<byte>>, r1: seq<seq<byte>>, r2: seq<seq<byte>>)
    requires Grown(r0, r1) && Grown(r1, r2)
    ensures Grown(r0, r2)
  {}

  /** The streams that a later log shows extend those an earlier one shows. */
  lemma {:induction false} ReadsGrow(log: seq<Event>, n: nat)
    requires n <= |log|
    ensures Grown(Reads(log[..n]), Reads(log))
    decreases |log|
  {
    if n == |log| {
      assert log[..n] == log;
    } else {
      var most := log[..|log| - 1];
      assert most[..n] == log[..n];
      ReadsGrow(most, n);
      GrownOneMore(log);
      GrownTwice(Reads(log[..n]), Reads(most), Reads(log));
    }
  }

  lemma ReadLandsIn(log: seq<Event>, n: nat)
    requires n < |log| && log[n].Got?
    ensures var k := ShortReads(log[..n]);
            k < |Reads(log)| && Reads(log[..n])[k] + log[n].bytes <= Reads(log)[k]
  {
    assert log[..n + 1] == log[..n] + [log[n]];
    ReadLogged(log[..n], log[n].bytes, log[n].request);
    ReadsGrow(log, n + 1);
  }

  lemma ReadsWithinStream(s: State, k: nat)
    requires Inv(s) && k < |Reads(s.log)| && Reads(s.log)[k] != []
    ensures k < |Streams(s.log)| && Reads(s.log)[k] <= Streams(s.log)[k]
  {
    FlowWithin(Streams(s.log), Reads(s.log), EndCount(s.log), Pending(s), s.endOfStream, s.reported, k);
  }

  lemma FlowWithin(w: seq<seq<byte>>, r: seq<seq<byte>>, ends: nat, pending: seq<byte>, ended: bool, reported: bool,
                   k: nat)
    requires Flow(w, r, ends, pending, ended, reported) && k < |r| && r[k] != []
    ensures k < |w| && r[k] <= w[k]
  {}

  /** No read mixes two streams: what the read logged at position n returned lies, in one
      piece, within the stream whose number is the count of short reads before it. */
  lemma ReadStaysInStream(r: seq<State>, i: nat, n: nat)
    requires Run(r) && i < |r| && n < |r[i].log| && r[i].log[n].Got? && r[i].log[n].bytes != []
    ensures var k := ShortReads(r[i].log[..n]);
            var before := Reads(r[i].log[..n])[k];
            && k < |Streams(r[i].log)|
            && before + r[i].log[n].bytes <= Streams(r[i].log)[k]
  {
    RunKeepsInv(r, i);
    var log := r[i].log;
    ReadLandsIn(log, n);
    ReadsWithinStream(r[i], ShortReads(log[..n]));
  }

  /** Neither side ever sleeps while its wake-up condition holds, and the two never sleep
      at the same time. */
  lemma NoLostWakeUp(r: seq<State>, i: nat)
    requires Run(r) && i < |r|
    ensures r[i].writer == Starting(true) ==> !r[i].reported
    ensures r[i].reader.Reading? && r[i].reader.asleep ==>
              r[i].queue == [] && !(r[i].endOfStream && !r[i].reported)
    ensures !(r[i].writer == Starting(true) && r[i].reader.Reading? && r[i].reader.asleep)
  {
    RunKeepsInv(r, i);
  }

  // ---- streams can be passed ------------------------------------------------------------

  /** What may happen from a state on. */
  ghost predicate Continues(s: State, r: seq<State>) {
    |r| > 0 && r[0] == s && forall i :: 0 <= i < |r| - 1 ==> Step(r[i], r[i + 1])
  }

  lemma Append(s: State, r: seq<State>, a: Action) returns (r': seq<State>)
    requires Continues(s, r) && Can(r[|r| - 1], a)
    ensures Continues(s, r') && r'[|r'| - 1] == Do(r[|r| - 1], a)
  {
    r' := r + [Do(r[|r| - 1], a)];
    forall i | 0 <= i < |r'| - 1 ensures Step(r'[i], r'[i + 1]) {
      if i < |r| - 1 { assert Step(r[i], r[i + 1]); }
    }
  }

  /** Nobody is in a call. */
  predicate AtRest(s: State) { s.writer == WriterIdle && s.reader == ReaderIdle }

  function ReadDone(s: State): State { s.(queue := [], reported := true, log := s.log + [Got(s.queue, |s.queue| + 1)]) }

  lemma ReadStepToEnd(s: State)
    requires AtRest(s) && s.endOfStream && !s.reported
    ensures Can(s, Read(|s.queue| + 1)) && Can(Do(s, Read(|s.queue| + 1)), ReadStep)
    ensures Do(Do(s, Read(|s.queue| + 1)), ReadStep) == ReadDone(s)
  {
    assert s.queue[..|s.queue|] == s.queue && [] + s.queue == s.queue;
  }

  /** The reader asks for more than there is, and learns of the end of the stream. */
  lemma ReadToEnd(s: State, r: seq<State>) returns (r': seq<State>)
    requires Continues(s, r) && AtRest(r[|r| - 1]) && r[|r| - 1].endOfStream && !r[|r| - 1].reported
    ensures Continues(s, r') && r'[|r'| - 1] == ReadDone(r[|r| - 1])
  {
    ReadStepToEnd(r[|r| - 1]);
    r' := Append(s, r, Read(|r[|r| - 1].queue| + 1));
    r' := Append(s, r', ReadStep);
  }

  /** The writer starts a stream. */
  lemma StartStream(s: State, r: seq<State>) returns (r': seq<State>)
    requires Continues(s, r) && AtRest(r[|r| - 1]) && r[|r| - 1].endOfStream && r[|r| - 1].reported
    ensures Continues(s, r')
    ensures var t := r[|r| - 1]; r'[|r'| - 1] == t.(endOfStream := false, log := t.log + [Started])
  {
    r' := Append(s, r, Start);
    r' := Append(s, r', StartStep);
  }

  function ByteDone(s: State, b: byte): State { s.(log := s.log + [Wrote([b], [b])] + [Got([b], 1)]) }

  lemma ByteSteps(s: State, b: byte)
    requires AtRest(s) && !s.endOfStream && s.queue == [] && s.size > 0
    ensures Can(s, Write([b])) && Can(Do(s, Write([b])), Read(1))
    ensures Can(Do(Do(s, Write([b])), Read(1)), ReadStep)
    ensures Do(Do(Do(s, Write([b])), Read(1)), ReadStep) == ByteDone(s, b)
  {
    assert Fitting(Room(s), [b]) == [b];
    assert [] + [b] == [b] && [b][..1] == [b];
  }

  /** One byte is written and read. */
  lemma PassByte(s: State, r: seq<State>, b: byte) returns (r': seq<State>)
    requires Continues(s, r) && AtRest(r[|r| - 1]) && !r[|r| - 1].endOfStream
    requires r[|r| - 1].queue == [] && r[|r| - 1].size > 0
    ensures Continues(s, r') && r'[|r'| - 1] == ByteDone(r[|r| - 1], b)
  {
    ByteSteps(r[|r| - 1], b);
    r' := Append(s, r, Write([b]));
    r' := Append(s, r', Read(1));
    r' := Append(s, r', ReadStep);
  }

  lemma ByteLogged(s: State, b: byte)
    ensures Streams(ByteDone(s, b).log) == AddToLast(Streams(s.log), [b])
  {
    WriteLogged(s.log, [b], [b]);
    ReadLogged(s.log + [Wrote([b], [b])], [b], 1);
  }

  lemma {:induction false} PassBytes(s: State, r: seq<State>, bytes: seq<byte>) returns (r': seq<State>)
    requires Continues(s, r) && AtRest(r[|r| - 1]) && !r[|r| - 1].endOfStream
    requires r[|r| - 1].queue == [] && r[|r| - 1].size > 0
    ensures Continues(s, r')
    ensures var t, t' := r[|r| - 1], r'[|r'| - 1];
            t' == t.(log := t'.log) && Streams(t'.log) == AddToLast(Streams(t.log), bytes)
    decreases |bytes|
  {
    var t := r[|r| - 1];
    if bytes == [] {
      r' := r;
      assert Streams(t.log)[|Streams(t.log)| - 1] + bytes == Streams(t.log)[|Streams(t.log)| - 1];
    } else {
      r' := PassByte(s, r, bytes[0]);
      ByteLogged(t, bytes[0]);
      r' := PassBytes(s, r', bytes[1..]);
      AddTwice(Streams(t.log), bytes);
    }
  }

  lemma AddTwice(streams: seq<seq<byte>>, bytes: seq<byte>)
    requires streams != [] && bytes != []
    ensures AddToLast(AddToLast(streams, [bytes[0]]), bytes[1..]) == AddToLast(streams, bytes)
  {
    var k := |streams| - 1;
    assert bytes == [bytes[0]] + bytes[1..];
    assert streams[k] + [bytes[0]] + bytes[1..] == streams[k] + bytes;
  }

  /** The writer ends the stream. */
  lemma EndStream(s: State, r: seq<State>) returns (r': seq<State>)
    requires Continues(s, r) && AtRest(r[|r| - 1]) && !r[|r| - 1].endOfStream
    ensures Continues(s, r') && AtRest(r'[|r'| - 1]) && r'[|r'| - 1].endOfStream && !r'[|r'| - 1].reported
    ensures r'[|r'| - 1].log == r[|r| - 1].log + [Ended]
  {
    r' := Append(s, r, End);
  }

  lemma {:induction false} ContinuesKeepsInv(s: State, r: seq<State>, i: nat)
    requires Inv(s) && Continues(s, r) && i < |r|
    ensures Inv(r[i])
  {
    if i > 0 {
      ContinuesKeepsInv(s, r, i - 1);
      assert Step(r[i - 1], r[i - 1 + 1]);
      var a :| Can(r[i - 1], a) && r[i] == Do(r[i - 1], a);
      DoKeepsInv(r[i - 1], a);
    }
  }

  /** The end of the last stream gets reported, if it has not been. */
  lemma Reported(s: State) returns (r: seq<State>)
    requires Inv(s) && AtRest(s) && s.endOfStream
    ensures Continues(s, r) && Inv(r[|r| - 1]) && AtRest(r[|r| - 1])
    ensures var t := r[|r| - 1]; t.endOfStream && t.reported && t.queue == [] && Streams(t.log) == Streams(s.log)
  {
    r := [s];
    if !s.reported {
      r := ReadToEnd(s, r);
      ReadLogged(s.log, s.queue, |s.queue| + 1);
    }
    ContinuesKeepsInv(s, r, |r| - 1);
  }

  /** Between streams, with nobody in a call, any bytes can be passed as the next stream: after a
      finite number of steps they have all been accepted, all been read and the end reported. */
  lemma StreamCanPass(s: State, bytes: seq<byte>) returns (r: seq<State>)
    requires Inv(s) && AtRest(s) && s.endOfStream
    ensures Continues(s, r) && AtRest(r[|r| - 1]) && r[|r| - 1].endOfStream && r[|r| - 1].reported
    ensures Streams(r[|r| - 1].log) == Streams(s.log) + [bytes]
    ensures ShortReads(r[|r| - 1].log) == |Streams(s.log)| + 1
    ensures Reads(r[|r| - 1].log)[|Streams(s.log)|] == bytes
  {
    r := Reported(s);
    StartLogged(r[|r| - 1].log);
    r := StartStream(s, r);
    r := PassBytes(s, r, bytes);
    AddToNew(Streams(s.log), bytes);
    EndLogged(r[|r| - 1].log);
    r := EndStream(s, r);
    ReadLogged(r[|r| - 1].log, r[|r| - 1].queue, |r[|r| - 1].queue| + 1);
    r := ReadToEnd(s, r);
    ContinuesKeepsInv(s, r, |r| - 1);
    EndsTogether(r[|r| - 1]);
  }

  lemma EndsTogether(s: State)
    requires Inv(s) && s.endOfStream && s.reported
    ensures ShortReads(s.log) == |Streams(s.log)| && Reads(s.log)[..|Streams(s.log)|] == Streams(s.log)
  {}

  lemma AddToNew(streams: seq<seq<byte>>, bytes: seq<byte>)
    ensures AddToLast(streams + [[]], bytes) == streams + [bytes]
  {
    assert (streams + [[]])[..|streams|] == streams && [] + bytes == bytes;
  }
}
