/**
  The text RPC protocol of src/textRPC.c between two endpoints: version negotiation, then
  calls in both directions whose returns come back in any order and are matched by id.

  Endpoint 0 is the server side of the connection, endpoint 1 the client side. `wire[i]`
  holds the lines on their way to endpoint i, oldest first; every line that is delivered is
  parsed from its text. A caller holds the mutex of its call record from before the line is
  sent until it sleeps (lines 1044-1063), so a return that arrives in between has to wait.

  The wait at line 1063 is not in a loop: a caller may wake up at any time. If it does so before
  its return has come, it takes whatever the fresh record holds for a result and frees the
  record. The return that comes later finds no call and is only reported (lines 724, 633-640).
 */
module TextRpc {
  import opened Wrappers
  import opened TextRpcLines

  datatype Phase =
    | Allocated               // 1014-1046: in the table of outstanding calls, not yet sent
    | Sent                    // 1051-1056: sent, the caller still holds the call's mutex
    | Waiting                 // 1063: asleep on finishedCondition
    | Answered(reply: Reply)  // 733-757: the return has been stored and broadcast
    | Gave(error: string)     // 1074-1078: returned an error; the record stays in the table
    | Abandoned               // 1063-1096: woken too early, the record is gone; kept here to
                              // account for the line or job still under way

  datatype Served = Served(text: string, reply: Reply)

  /** `served` lists what dispatch functions were given, and produced, for this call. */
  datatype Call = Call(text: string, phase: Phase, served: seq<Served>)

  datatype Job = Job(id: int, text: string)

  /** A textRPC_call that has returned; `answered` tells whether its return had come. */
  datatype Return = Return(text: string, reply: Reply, served: seq<Served>, answered: bool)

  datatype Endpoint = Endpoint(latest: nat, running: bool, version: int, nextId: nat,
                               calls: map<int, Call>, jobs: seq<Job>, returned: seq<Return>)

  datatype State = State(ends: seq<Endpoint>, wire: seq<seq<Msg>>, asked: bool, failed: bool)

  type Side = i: nat | i < 2

  datatype Action =
    | Ask                                       // negotiate_protocol
    | Deliver(to: Side)                         // connection_sock_handler
    | Allocate(at: Side, text: string)          // textRPC_call up to HashAdd
    | Send(at: Side, id: int)
    | Sleep(at: Side, id: int)
    | Serve(at: Side, k: nat, reply: Reply)     // call_threadFunc, for any waiting job
    | Finish(at: Side, id: int)                 // textRPC_call after the wait
    | WakeUp(at: Side, id: int, junk: Option<string>)  // the same, before the return has come

  function Peer(i: Side): Side { 1 - i }

  predicate Shape(s: State) { |s.ends| == 2 && |s.wire| == 2 }

  const TWO32: nat := 0x1_0000_0000

  /** callId is an int taken from an unsigned counter. */
  function CallId(n: nat): (id: int)
    ensures id in {n, n - TWO32} && (n < TWO32 ==> -0x8000_0000 <= id < 0x8000_0000)
  {
    if n < 0x8000_0000 then n else n - TWO32
  }

  predicate OneLine(s: string) { '\n' !in s && '\r' !in s }

  predicate OneLineReply(r: Reply) {
    match r
    case Value(None) => true
    case Value(Some(text)) => OneLine(text)
    case Raised(error) => OneLine(error)
  }

  ghost predicate Init(s: State) {
    && Shape(s) && !s.asked && !s.failed && s.wire == [[], []]
    && (forall i: Side :: var e := s.ends[i];
          !e.running && e.calls == map[] && e.jobs == [] && e.returned == [])
    && s.ends[0].version == -1 && s.ends[0].nextId == 0
    && s.ends[1].version == s.ends[1].latest && s.ends[1].nextId == 1
  }

  /** Calls are made only on a connection that has been opened, with an id that no
      outstanding call of this endpoint carries; texts are single lines. */
  predicate Can(s: State, a: Action)
    requires Shape(s)
  {
    match a
    case Ask => !s.asked
    case Deliver(i) =>
      && s.wire[i] != []
      && (s.wire[i][0].ReplyMsg? && s.wire[i][0].id in s.ends[i].calls ==>
            s.ends[i].calls[s.wire[i][0].id].phase != Sent)
    case Allocate(i, text) =>
      s.ends[i].running && OneLine(text) && CallId(s.ends[i].nextId) !in s.ends[i].calls
    case Send(i, id) => id in s.ends[i].calls && s.ends[i].calls[id].phase == Allocated
    case Sleep(i, id) => id in s.ends[i].calls && s.ends[i].calls[id].phase == Sent
    case Serve(i, k, reply) => k < |s.ends[i].jobs| && OneLineReply(reply)
    case Finish(i, id) => id in s.ends[i].calls && s.ends[i].calls[id].phase.Answered?
    case WakeUp(i, id, _) => id in s.ends[i].calls && s.ends[i].calls[id].phase == Waiting
  }

  function SetEnd(s: State, i: Side, e: Endpoint): (s': State)
    requires Shape(s)
    ensures Shape(s')
  {
    s.(ends := s.ends[i := e])
  }

  function SetCall(e: Endpoint, id: int, c: Call): Endpoint { e.(calls := e.calls[id := c]) }

  function Post(s: State, i: Side, m: Msg): (s': State)
    requires Shape(s)
    ensures Shape(s')
  {
    s.(wire := s.wire[i := s.wire[i] + [m]])
  }

  function Assert(s: State, ok: bool): (s': State)
    ensures s'.failed <==> s.failed || !ok
  {
    s.(failed := s.failed || !ok)
  }

  function MinVersion(a: int, b: int): (v: int)
    ensures v <= a && v <= b && v in {a, b}
  {
    if a > b then b else a
  }

  /** An endpoint that is running stays so, and has its latest version for good. */
  predicate Keeps(s: State, s': State)
    requires Shape(s) && Shape(s')
  {
    && (s.asked ==> s'.asked)
    && (s.ends[0].running ==> s'.ends[0].running) && (s.ends[1].running ==> s'.ends[1].running)
    && s'.ends[0].latest == s.ends[0].latest && s'.ends[1].latest == s.ends[1].latest
  }

  /** Lines 464-587: `failed` also records a line that is not understood. */
  function Negotiate(s: State, i: Side, m: Option<Msg>): (s': State)
    requires Shape(s)
    ensures Shape(s') && Keeps(s, s')
    ensures s'.wire[i] == s.wire[i] && s.wire[Peer(i)] <= s'.wire[Peer(i)]
    ensures s'.ends[Peer(i)] == s.ends[Peer(i)] && s'.ends[i].jobs == s.ends[i].jobs
            && s'.ends[i].calls == s.ends[i].calls
  {
    var e := s.ends[i];
    match m
    case Some(Request(v)) =>
      var version := MinVersion(v, e.latest);
      Post(SetEnd(s, i, e.(version := version, running := true)), Peer(i), Version(version))
    case Some(Version(v)) =>
      SetEnd(Assert(s, e.version == -1 && v <= e.latest), i, e.(version := v, running := true))
    case _ => Assert(s, false)
  }

  /** Lines 589-641 and handleReturn. */
  function Receive(s: State, i: Side, m: Option<Msg>): (s': State)
    requires Shape(s)
    ensures Shape(s') && Keeps(s, s')
    ensures s'.wire == s.wire && s'.asked == s.asked && s'.ends[Peer(i)] == s.ends[Peer(i)]
    ensures var e, e' := s.ends[i], s'.ends[i];
            e'.latest == e.latest && e'.running == e.running && e'.version == e.version
    ensures s.ends[i].jobs <= s'.ends[i].jobs
  {
    var e := s.ends[i];
    match m
    case Some(CallMsg(id, text)) => SetEnd(s, i, e.(jobs := e.jobs + [Job(id, text)]))
    case Some(ReplyMsg(id, reply)) =>
      if id in e.calls && e.calls[id].phase == Waiting
      then SetEnd(s, i, SetCall(e, id, e.calls[id].(phase := Answered(reply))))
      else if id in e.calls && e.calls[id].phase == Abandoned
      then SetEnd(s, i, e.(calls := e.calls - {id}))
      else Assert(s, false)
    case _ => Assert(s, false)
  }

  function TakeLine(s: State, i: Side, line: string): (s': State)
    requires Shape(s)
    ensures Shape(s') && Keeps(s, s')
    ensures s'.wire[i] == s.wire[i] && s.wire[Peer(i)] <= s'.wire[Peer(i)]
    ensures s'.ends[Peer(i)] == s.ends[Peer(i)] && s.ends[i].jobs <= s'.ends[i].jobs
  {
    if s.ends[i].running then Receive(s, i, ParseRunning(line)) else Negotiate(s, i, ParseNegotiation(line))
  }

  /** The first line is taken off. */
  function Popped(s: State, i: Side): (s': State)
    requires Shape(s) && s.wire[i] != []
    ensures Shape(s') && s'.wire[i] == s.wire[i][1..] && s'.wire[Peer(i)] == s.wire[Peer(i)]
    ensures s'.ends == s.ends && s'.asked == s.asked && s'.failed == s.failed
  {
    s.(wire := s.wire[i := s.wire[i][1..]])
  }

  function DoDeliver(s: State, i: Side): (s': State)
    requires Shape(s) && Can(s, Deliver(i))
    ensures Shape(s') && Keeps(s, s')
    ensures s'.wire[i] == s.wire[i][1..] && s.wire[Peer(i)] <= s'.wire[Peer(i)]
    ensures s'.ends[Peer(i)] == s.ends[Peer(i)] && s.ends[i].jobs <= s'.ends[i].jobs
  {
    TakeLine(Popped(s, i), i, Format(s.wire[i][0]))
  }

  /** call_threadFunc: the reply goes back under the id that came with the call. */
  function DoServe(s: State, i: Side, k: nat, reply: Reply): (s': State)
    requires Shape(s) && Can(s, Serve(i, k, reply))
    ensures Shape(s') && Keeps(s, s')
  {
    var e, p := s.ends[i], s.ends[Peer(i)];
    var job := e.jobs[k];
    var s1 := SetEnd(s, i, e.(jobs := e.jobs[..k] + e.jobs[k + 1..]));
    var s2 := if job.id in p.calls
              then SetEnd(s1, Peer(i), SetCall(p, job.id,
                     p.calls[job.id].(served := p.calls[job.id].served + [Served(job.text, reply)])))
              else s1;
    Post(s2, Peer(i), ReplyMsg(job.id, reply))
  }

  /** Lines 1074-1096: an error leaves the record in the table, a result removes it. */
  function DoFinish(s: State, i: Side, id: int): (s': State)
    requires Shape(s) && Can(s, Finish(i, id))
    ensures Shape(s') && Keeps(s, s')
  {
    var e := s.ends[i];
    var c := e.calls[id];
    var e1 := e.(returned := e.returned + [Return(c.text, c.phase.reply, c.served, true)]);
    SetEnd(s, i, if c.phase.reply.Raised? then SetCall(e1, id, c.(phase := Gave(c.phase.reply.error)))
                 else e1.(calls := e.calls - {id}))
  }

  /** The record's error field is NULL (1036), its result field was never written. */
  function DoWakeUp(s: State, i: Side, id: int, junk: Option<string>): (s': State)
    requires Shape(s) && Can(s, WakeUp(i, id, junk))
    ensures Shape(s') && Keeps(s, s')
  {
    var e := s.ends[i];
    var c := e.calls[id];
    SetEnd(s, i, SetCall(e.(returned := e.returned + [Return(c.text, Value(junk), c.served, false)]),
                         id, c.(phase := Abandoned)))
  }

  function DoAllocate(s: State, i: Side, text: string): (s': State)
    requires Shape(s) && Can(s, Allocate(i, text))
    ensures Shape(s') && Keeps(s, s')
  {
    var e := s.ends[i];
    SetEnd(s, i, SetCall(e, CallId(e.nextId), Call(text, Allocated, [])).(nextId := (e.nextId + 1) % TWO32))
  }

  function DoSend(s: State, i: Side, id: int): (s': State)
    requires Shape(s) && Can(s, Send(i, id))
    ensures Shape(s') && Keeps(s, s')
  {
    var e := s.ends[i];
    Post(SetEnd(s, i, SetCall(e, id, e.calls[id].(phase := Sent))), Peer(i), CallMsg(id, e.calls[id].text))
  }

  function Do(s: State, a: Action): (s': State)
    requires Shape(s) && Can(s, a)
    ensures Shape(s') && Keeps(s, s')
  {
    match a
    case Ask => Post(s.(asked := true), 1, Request(s.ends[0].latest))
    case Deliver(i) => DoDeliver(s, i)
    case Allocate(i, text) => DoAllocate(s, i, text)
    case Send(i, id) => DoSend(s, i, id)
    case Sleep(i, id) =>
      var e := s.ends[i];
      SetEnd(s, i, SetCall(e, id, e.calls[id].(phase := Waiting)))
    case Serve(i, k, reply) => DoServe(s, i, k, reply)
    case Finish(i, id) => DoFinish(s, i, id)
    case WakeUp(i, id, junk) => DoWakeUp(s, i, id, junk)
  }

  ghost predicate Step(s: State, s': State)
    requires Shape(s)
  {
    exists a :: Can(s, a) && s' == Do(s, a)
  }

  ghost predicate Run(r: seq<State>) {
    && |r| > 0 && Init(r[0])
    && (forall i :: 0 <= i < |r| ==> Shape(r[i]))
    && forall i :: 0 <= i < |r| - 1 ==> Step(r[i], r[i + 1])
  }

  // ---- one direction of calling --------------------------------------------------------

  /** The ids of the calls, jobs and replies in a queue, with repetitions. */
  function CallIds(w: seq<Msg>): multiset<int> {
    if w == [] then multiset{}
    else (if w[0].CallMsg? then multiset{w[0].id} else multiset{}) + CallIds(w[1..])
  }

  function ReplyIds(w: seq<Msg>): multiset<int> {
    if w == [] then multiset{}
    else (if w[0].ReplyMsg? then multiset{w[0].id} else multiset{}) + ReplyIds(w[1..])
  }

  function JobIds(jobs: seq<Job>): multiset<int> {
    if jobs == [] then multiset{} else multiset{jobs[0].id} + JobIds(jobs[1..])
  }

  lemma {:induction false} CallIdsConcat(a: seq<Msg>, b: seq<Msg>)
    ensures CallIds(a + b) == CallIds(a) + CallIds(b)
    ensures ReplyIds(a + b) == ReplyIds(a) + ReplyIds(b)
  {
    if a == [] {
      assert a + b == b;
    } else {
      assert (a + b)[1..] == a[1..] + b;
      CallIdsConcat(a[1..], b);
    }
  }

  lemma {:induction false} JobIdsConcat(a: seq<Job>, b: seq<Job>)
    ensures JobIds(a + b) == JobIds(a) + JobIds(b)
  {
    if a == [] {
      assert a + b == b;
    } else {
      assert (a + b)[1..] == a[1..] + b;
      JobIdsConcat(a[1..], b);
    }
  }

  function TokenCount(reqs: seq<Msg>, jobs: seq<Job>, reps: seq<Msg>, id: int): nat {
    CallIds(reqs)[id] + JobIds(jobs)[id] + ReplyIds(reps)[id]
  }

  predicate Pending(calls: map<int, Call>, id: int) {
    id in calls && calls[id].phase in {Sent, Waiting, Abandoned}
  }

  predicate RequestOk(calls: map<int, Call>, id: int, text: string) {
    Pending(calls, id) && calls[id].text == text && calls[id].served == []
  }

  predicate ReplyOk(calls: map<int, Call>, id: int, reply: Reply) {
    Pending(calls, id) && calls[id].served == [Served(calls[id].text, reply)]
  }

  predicate CallOk(c: Call) {
    match c.phase
    case Allocated => c.served == []
    case Answered(reply) => c.served == [Served(c.text, reply)]
    case _ => true
  }

  /** Calls are conserved: for every id, a call that has been sent and not answered is in
      exactly one place, as a request line, as a job or as a reply line, and nothing else is
      under way. */
  ghost predicate Conserved(calls: map<int, Call>, reqs: seq<Msg>, jobs: seq<Job>, reps: seq<Msg>) {
    forall id :: TokenCount(reqs, jobs, reps, id) == if Pending(calls, id) then 1 else 0
  }

  /** What is under way belongs to the call with its id. */
  ghost predicate Matched(calls: map<int, Call>, reqs: seq<Msg>, jobs: seq<Job>, reps: seq<Msg>) {
    && (forall k :: 0 <= k < |reqs| && reqs[k].CallMsg? ==> RequestOk(calls, reqs[k].id, reqs[k].text))
    && (forall k :: 0 <= k < |jobs| ==> RequestOk(calls, jobs[k].id, jobs[k].text))
    && (forall k :: 0 <= k < |reps| && reps[k].ReplyMsg? ==> ReplyOk(calls, reps[k].id, reps[k].reply))
  }

  ghost predicate DirInv(e: Endpoint, reqs: seq<Msg>, jobs: seq<Job>, reps: seq<Msg>) {
    && Conserved(e.calls, reqs, jobs, reps)
    && Matched(e.calls, reqs, jobs, reps)
    && (forall id :: id in e.calls ==> CallOk(e.calls[id]))
    && (forall k :: 0 <= k < |e.returned| && e.returned[k].answered ==>
          e.returned[k].served == [Served(e.returned[k].text, e.returned[k].reply)])
  }

  // ---- negotiation -----------------------------------------------------------------------

  /** The version both sides end up with. */
  function Agreed(s: State): int
    requires Shape(s)
  {
    MinVersion(s.ends[0].latest, s.ends[1].latest)
  }

  ghost predicate CallsOnly(w: seq<Msg>) { forall k :: 0 <= k < |w| ==> w[k].CallMsg? || w[k].ReplyMsg? }

  ghost predicate NegInv(s: State)
    requires Shape(s)
  {
    var server, client := s.ends[0], s.ends[1];
    && (!server.running ==> server.version == -1 && server.calls == map[] && server.jobs == [])
    && (!client.running ==> client.calls == map[] && client.jobs == [] && !server.running)
    && (server.running ==> server.version == Agreed(s))
    && (client.running ==> s.asked && client.version == Agreed(s))
    && (if !s.asked then s.wire == [[], []] && !client.running
        else if !client.running then s.wire[1] == [Request(server.latest)] && s.wire[0] == []
        else if !server.running
        then s.wire[1] == [] && s.wire[0] != [] && s.wire[0][0] == Version(Agreed(s)) && CallsOnly(s.wire[0][1..])
        else CallsOnly(s.wire[0]) && CallsOnly(s.wire[1]))
  }

  ghost predicate DirAt(s: State, i: Side)
    requires Shape(s)
  {
    DirInv(s.ends[i], s.wire[Peer(i)], s.ends[Peer(i)].jobs, s.wire[i])
  }

  ghost predicate Inv(s: State) {
    && Shape(s) && !s.failed
    && NegInv(s)
    && forall i: Side :: DirAt(s, i)
  }

  // ---- preservation of one direction -----------------------------------------------------

  lemma {:induction false} InCallIds(w: seq<Msg>, k: nat)
    requires k < |w|
    ensures w[k].CallMsg? ==> CallIds(w)[w[k].id] >= 1
    ensures w[k].ReplyMsg? ==> ReplyIds(w)[w[k].id] >= 1
  {
    if k > 0 { InCallIds(w[1..], k - 1); }
  }

  lemma {:induction false} InJobIds(jobs: seq<Job>, k: nat)
    requires k < |jobs|
    ensures JobIds(jobs)[jobs[k].id] >= 1
  {
    if k > 0 { InJobIds(jobs[1..], k - 1); }
  }

  /** If nothing is under way for an id, nothing under way carries it. */
  lemma NoToken(reqs: seq<Msg>, jobs: seq<Job>, reps: seq<Msg>, id: int)
    requires TokenCount(reqs, jobs, reps, id) == 0
    ensures forall k :: 0 <= k < |reqs| && reqs[k].CallMsg? ==> reqs[k].id != id
    ensures forall k :: 0 <= k < |jobs| ==> jobs[k].id != id
    ensures forall k :: 0 <= k < |reps| && reps[k].ReplyMsg? ==> reps[k].id != id
  {
    forall k | 0 <= k < |reqs| ensures reqs[k].CallMsg? ==> reqs[k].id != id { InCallIds(reqs, k); }
    forall k | 0 <= k < |jobs| ensures jobs[k].id != id { InJobIds(jobs, k); }
    forall k | 0 <= k < |reps| ensures reps[k].ReplyMsg? ==> reps[k].id != id { InCallIds(reps, k); }
  }

  /** A line of the other direction of calling comes or goes. */
  lemma OtherReplySide(e: Endpoint, reqs: seq<Msg>, jobs: seq<Job>, reps: seq<Msg>, m: Msg)
    requires DirInv(e, reqs, jobs, reps) && !m.ReplyMsg?
    ensures DirInv(e, reqs, jobs, reps + [m])
    ensures reps != [] && reps[0] == m ==> DirInv(e, reqs, jobs, reps[1..])
  {
    CallIdsConcat(reps, [m]);
    assert ReplyIds(reps + [m]) == ReplyIds(reps);
    assert Matched(e.calls, reqs, jobs, reps + [m]);
    SameTokens(e.calls, reqs, jobs, reps, reqs, jobs, reps + [m]);
    if reps != [] && reps[0] == m {
      assert ReplyIds(reps[1..]) == ReplyIds(reps);
      SameTokens(e.calls, reqs, jobs, reps, reqs, jobs, reps[1..]);
      assert forall k :: 0 <= k < |reps[1..]| ==> reps[1..][k] == reps[k + 1];
    }
  }

  lemma OtherRequestSide(e: Endpoint, reqs: seq<Msg>, jobs: seq<Job>, reps: seq<Msg>, m: Msg)
    requires DirInv(e, reqs, jobs, reps) && !m.CallMsg?
    ensures DirInv(e, reqs + [m], jobs, reps)
    ensures reqs != [] && reqs[0] == m ==> DirInv(e, reqs[1..], jobs, reps)
  {
    CallIdsConcat(reqs, [m]);
    assert CallIds(reqs + [m]) == CallIds(reqs);
    assert Matched(e.calls, reqs + [m], jobs, reps);
    SameTokens(e.calls, reqs, jobs, reps, reqs + [m], jobs, reps);
    if reqs != [] && reqs[0] == m {
      assert CallIds(reqs[1..]) == CallIds(reqs);
      SameTokens(e.calls, reqs, jobs, reps, reqs[1..], jobs, reps);
      assert forall k :: 0 <= k < |reqs[1..]| ==> reqs[1..][k] == reqs[k + 1];
    }
  }

  lemma SameTokens(calls: map<int, Call>, reqs: seq<Msg>, jobs: seq<Job>, reps: seq<Msg>,
                   reqs': seq<Msg>, jobs': seq<Job>, reps': seq<Msg>)
    requires Conserved(calls, reqs, jobs, reps)
    requires CallIds(reqs') + JobIds(jobs') + ReplyIds(reps') == CallIds(reqs) + JobIds(jobs) + ReplyIds(reps)
    ensures Conserved(calls, reqs', jobs', reps')
  {
    var all := CallIds(reqs) + JobIds(jobs) + ReplyIds(reps);
    forall id ensures TokenCount(reqs', jobs', reps', id) == if Pending(calls, id) then 1 else 0 {
      assert TokenCount(reqs, jobs, reps, id) == all[id] == TokenCount(reqs', jobs', reps', id);
    }
  }

  lemma CallDelivered(e: Endpoint, reqs: seq<Msg>, jobs: seq<Job>, reps: seq<Msg>)
    requires DirInv(e, reqs, jobs, reps) && reqs != [] && reqs[0].CallMsg?
    ensures DirInv(e, reqs[1..], jobs + [Job(reqs[0].id, reqs[0].text)], reps)
  {
    CallDeliveredTokens(e.calls, reqs, jobs, reps);
    CallDeliveredMatches(e.calls, reqs, jobs, reps);
  }

  lemma CallDeliveredTokens(calls: map<int, Call>, reqs: seq<Msg>, jobs: seq<Job>, reps: seq<Msg>)
    requires Conserved(calls, reqs, jobs, reps) && reqs != [] && reqs[0].CallMsg?
    ensures Conserved(calls, reqs[1..], jobs + [Job(reqs[0].id, reqs[0].text)], reps)
  {
    var job := Job(reqs[0].id, reqs[0].text);
    JobIdsConcat(jobs, [job]);
    assert JobIds([job]) == multiset{job.id};
    SameTokens(calls, reqs, jobs, reps, reqs[1..], jobs + [job], reps);
  }

  lemma CallDeliveredMatches(calls: map<int, Call>, reqs: seq<Msg>, jobs: seq<Job>, reps: seq<Msg>)
    requires Matched(calls, reqs, jobs, reps) && reqs != [] && reqs[0].CallMsg?
    ensures Matched(calls, reqs[1..], jobs + [Job(reqs[0].id, reqs[0].text)], reps)
  {
    assert RequestOk(calls, reqs[0].id, reqs[0].text);
    assert forall k :: 0 <= k < |reqs[1..]| ==> reqs[1..][k] == reqs[k + 1];
  }

  lemma JobRemoved(jobs: seq<Job>, k: nat)
    requires k < |jobs|
    ensures JobIds(jobs) == JobIds(jobs[..k] + jobs[k + 1..]) + multiset{jobs[k].id}
  {
    SplitAt(jobs, k);
    JobRemovedFrom(jobs[..k], jobs[k], jobs[k + 1..]);
  }

  lemma SplitAt(jobs: seq<Job>, k: nat)
    requires k < |jobs|
    ensures jobs == jobs[..k] + ([jobs[k]] + jobs[k + 1..])
  {}

  lemma JobRemovedFrom(front: seq<Job>, job: Job, back: seq<Job>)
    ensures JobIds(front + ([job] + back)) == JobIds(front + back) + multiset{job.id}
  {
    JobIdsConcat(front, [job] + back);
    JobFirst(job, back);
    JobIdsConcat(front, back);
  }

  lemma JobFirst(job: Job, rest: seq<Job>)
    ensures JobIds([job] + rest) == multiset{job.id} + JobIds(rest)
  {
    assert ([job] + rest)[1..] == rest;
  }

  /** The call that a job belongs to, once the job has been served. */
  function ServedCall(e: Endpoint, job: Job, reply: Reply): Endpoint
    requires job.id in e.calls
  {
    var c := e.calls[job.id];
    SetCall(e, job.id, c.(served := c.served + [Served(job.text, reply)]))
  }

  lemma JobServedTokens(calls: map<int, Call>, reqs: seq<Msg>, jobs: seq<Job>, reps: seq<Msg>,
                        k: nat, m: Msg)
    requires Conserved(calls, reqs, jobs, reps) && k < |jobs| && m.ReplyMsg? && m.id == jobs[k].id
    ensures Conserved(calls, reqs, jobs[..k] + jobs[k + 1..], reps + [m])
  {
    JobRemoved(jobs, k);
    CallIdsConcat(reps, [m]);
    assert ReplyIds([m]) == multiset{m.id};
    SameTokens(calls, reqs, jobs, reps, reqs, jobs[..k] + jobs[k + 1..], reps + [m]);
  }

  /** The other jobs belong to other calls. */
  lemma OtherJobsMatch(e: Endpoint, jobs: seq<Job>, k: nat, reply: Reply)
    requires k < |jobs| && jobs[k].id in e.calls
    requires forall j :: 0 <= j < |jobs| ==> RequestOk(e.calls, jobs[j].id, jobs[j].text)
    requires forall j :: 0 <= j < |jobs| && j != k ==> jobs[j].id != jobs[k].id
    ensures var jobs', calls := jobs[..k] + jobs[k + 1..], ServedCall(e, jobs[k], reply).calls;
            forall j :: 0 <= j < |jobs'| ==> RequestOk(calls, jobs'[j].id, jobs'[j].text)
  {
    var jobs', calls := jobs[..k] + jobs[k + 1..], ServedCall(e, jobs[k], reply).calls;
    forall j | 0 <= j < |jobs'| ensures RequestOk(calls, jobs'[j].id, jobs'[j].text) {
      assert jobs'[j] == jobs[if j < k then j else j + 1];
    }
  }

  lemma JobServedMatches(e: Endpoint, reqs: seq<Msg>, jobs: seq<Job>, reps: seq<Msg>, k: nat, reply: Reply)
    requires Matched(e.calls, reqs, jobs, reps) && k < |jobs| && jobs[k].id in e.calls
    requires TokenCount(reqs, jobs[..k] + jobs[k + 1..], reps, jobs[k].id) == 0
    ensures Matched(ServedCall(e, jobs[k], reply).calls, reqs, jobs[..k] + jobs[k + 1..],
                    reps + [ReplyMsg(jobs[k].id, reply)])
  {
    var jobs' := jobs[..k] + jobs[k + 1..];
    NoToken(reqs, jobs', reps, jobs[k].id);
    assert RequestOk(e.calls, jobs[k].id, jobs[k].text);
    forall j | 0 <= j < |jobs| && j != k ensures jobs[j].id != jobs[k].id {
      assert jobs[j] == jobs'[if j < k then j else j - 1];
    }
    OtherJobsMatch(e, jobs, k, reply);
  }

  lemma JobServed(e: Endpoint, reqs: seq<Msg>, jobs: seq<Job>, reps: seq<Msg>, k: nat, reply: Reply)
    requires DirInv(e, reqs, jobs, reps) && k < |jobs|
    ensures jobs[k].id in e.calls
    ensures DirInv(ServedCall(e, jobs[k], reply), reqs, jobs[..k] + jobs[k + 1..],
                   reps + [ReplyMsg(jobs[k].id, reply)])
  {
    var id := jobs[k].id;
    assert RequestOk(e.calls, id, jobs[k].text);
    JobServedTokens(e.calls, reqs, jobs, reps, k, ReplyMsg(id, reply));
    SamePending(e.calls, ServedCall(e, jobs[k], reply).calls, reqs, jobs[..k] + jobs[k + 1..],
                reps + [ReplyMsg(id, reply)]);
    JobRemoved(jobs, k);
    assert TokenCount(reqs, jobs, reps, id) == 1;
    JobServedMatches(e, reqs, jobs, reps, k, reply);
  }

  lemma SamePending(calls: map<int, Call>, calls': map<int, Call>,
                    reqs: seq<Msg>, jobs: seq<Job>, reps: seq<Msg>)
    requires Conserved(calls, reqs, jobs, reps)
    requires forall id :: Pending(calls', id) == Pending(calls, id)
    ensures Conserved(calls', reqs, jobs, reps)
  {}

  /** The number of tokens for one id changes together with the state of its call. */
  lemma TokenStep(calls: map<int, Call>, reqs: seq<Msg>, jobs: seq<Job>, reps: seq<Msg>,
                  calls': map<int, Call>, reqs': seq<Msg>, reps': seq<Msg>, id: int)
    requires Conserved(calls, reqs, jobs, reps)
    requires CallIds(reqs') + ReplyIds(reps') + (if Pending(calls, id) then multiset{id} else multiset{})
          == CallIds(reqs) + ReplyIds(reps) + (if Pending(calls', id) then multiset{id} else multiset{})
    requires forall k :: k != id ==> Pending(calls', k) == Pending(calls, k)
    ensures Conserved(calls', reqs', jobs, reps')
  {
    var now := CallIds(reqs') + ReplyIds(reps') + (if Pending(calls, id) then multiset{id} else multiset{});
    var was := CallIds(reqs) + ReplyIds(reps) + (if Pending(calls', id) then multiset{id} else multiset{});
    forall k ensures TokenCount(reqs', jobs, reps', k) == if Pending(calls', k) then 1 else 0 {
      assert TokenCount(reqs, jobs, reps, k) == if Pending(calls, k) then 1 else 0;
      assert now[k] == was[k];
    }
  }

  lemma ReplyDeliveredTokens(calls: map<int, Call>, reqs: seq<Msg>, jobs: seq<Job>, reps: seq<Msg>,
                             calls': map<int, Call>)
    requires Conserved(calls, reqs, jobs, reps) && reps != [] && reps[0].ReplyMsg?
    requires Pending(calls, reps[0].id) && !Pending(calls', reps[0].id)
    requires forall k :: k != reps[0].id ==> Pending(calls', k) == Pending(calls, k)
    ensures Conserved(calls', reqs, jobs, reps[1..])
  {
    assert ReplyIds(reps) == multiset{reps[0].id} + ReplyIds(reps[1..]);
    TokenStep(calls, reqs, jobs, reps, calls', reqs, reps[1..], reps[0].id);
  }

  /** A call for which nothing is under way may change without disturbing what is. */
  lemma StillMatched(calls: map<int, Call>, reqs: seq<Msg>, jobs: seq<Job>, reps: seq<Msg>,
                     id: int, c: Call)
    requires Matched(calls, reqs, jobs, reps) && TokenCount(reqs, jobs, reps, id) == 0
    ensures Matched(calls[id := c], reqs, jobs, reps)
  {
    NoToken(reqs, jobs, reps, id);
  }

  lemma ReplyDelivered(e: Endpoint, reqs: seq<Msg>, jobs: seq<Job>, reps: seq<Msg>)
    requires DirInv(e, reqs, jobs, reps) && reps != [] && reps[0].ReplyMsg?
    ensures reps[0].id in e.calls && e.calls[reps[0].id].phase in {Sent, Waiting, Abandoned}
    ensures DirInv(SetCall(e, reps[0].id, e.calls[reps[0].id].(phase := Answered(reps[0].reply))),
                   reqs, jobs, reps[1..])
    ensures DirInv(e.(calls := e.calls - {reps[0].id}), reqs, jobs, reps[1..])
  {
    var m := reps[0];
    assert ReplyOk(e.calls, m.id, m.reply);
    var c := e.calls[m.id].(phase := Answered(m.reply));
    ReplyDeliveredTokens(e.calls, reqs, jobs, reps, e.calls[m.id := c]);
    assert TokenCount(reqs, jobs, reps[1..], m.id) == 0;
    assert forall k :: 0 <= k < |reps[1..]| ==> reps[1..][k] == reps[k + 1];
    StillMatched(e.calls, reqs, jobs, reps[1..], m.id, c);
    CallDropped(SetCall(e, m.id, c), reqs, jobs, reps[1..], m.id);
    assert e.calls[m.id := c] - {m.id} == e.calls - {m.id};
  }

  /** A call with nothing under way may leave the table. */
  lemma CallDropped(e: Endpoint, reqs: seq<Msg>, jobs: seq<Job>, reps: seq<Msg>, id: int)
    requires DirInv(e, reqs, jobs, reps) && !Pending(e.calls, id)
    ensures DirInv(e.(calls := e.calls - {id}), reqs, jobs, reps)
  {
    assert TokenCount(reqs, jobs, reps, id) == 0;
    NoToken(reqs, jobs, reps, id);
  }

  lemma CallSentTokens(calls: map<int, Call>, reqs: seq<Msg>, jobs: seq<Job>, reps: seq<Msg>,
                       calls': map<int, Call>, m: Msg)
    requires Conserved(calls, reqs, jobs, reps) && m.CallMsg?
    requires !Pending(calls, m.id) && Pending(calls', m.id)
    requires forall k :: k != m.id ==> Pending(calls', k) == Pending(calls, k)
    ensures Conserved(calls', reqs + [m], jobs, reps)
  {
    CallIdsConcat(reqs, [m]);
    assert CallIds([m]) == multiset{m.id};
    TokenStep(calls, reqs, jobs, reps, calls', reqs + [m], reps, m.id);
  }

  lemma CallSent(e: Endpoint, reqs: seq<Msg>, jobs: seq<Job>, reps: seq<Msg>, id: int)
    requires DirInv(e, reqs, jobs, reps) && id in e.calls && e.calls[id].phase == Allocated
    ensures DirInv(SetCall(e, id, e.calls[id].(phase := Sent)),
                   reqs + [CallMsg(id, e.calls[id].text)], jobs, reps)
  {
    var m := CallMsg(id, e.calls[id].text);
    var e' := SetCall(e, id, e.calls[id].(phase := Sent));
    CallSentTokens(e.calls, reqs, jobs, reps, e'.calls, m);
    assert CallOk(e.calls[id]);
    assert TokenCount(reqs, jobs, reps, id) == 0;
    StillMatched(e.calls, reqs, jobs, reps, id, e.calls[id].(phase := Sent));
  }

  /** Steps of a caller that move no message. */
  lemma CallMoved(e: Endpoint, reqs: seq<Msg>, jobs: seq<Job>, reps: seq<Msg>, id: int, c: Call)
    requires DirInv(e, reqs, jobs, reps) && CallOk(c)
    requires Pending(e.calls, id) <==> c.phase in {Sent, Waiting, Abandoned}
    requires Pending(e.calls, id) ==> c.text == e.calls[id].text && c.served == e.calls[id].served
    ensures DirInv(SetCall(e, id, c), reqs, jobs, reps)
  {}

  lemma CallFinished(e: Endpoint, reqs: seq<Msg>, jobs: seq<Job>, reps: seq<Msg>, id: int)
    requires DirInv(e, reqs, jobs, reps) && id in e.calls && e.calls[id].phase.Answered?
    ensures var c := e.calls[id];
            var e' := e.(returned := e.returned + [Return(c.text, c.phase.reply, c.served, true)]);
            && DirInv(e', reqs, jobs, reps)
            && DirInv(e'.(calls := e.calls - {id}), reqs, jobs, reps)
  {
    assert CallOk(e.calls[id]);
    assert TokenCount(reqs, jobs, reps, id) == 0;
    NoToken(reqs, jobs, reps, id);
  }

  // ---- preservation by every action --------------------------------------------------------

  /** Two endpoints: an invariant of both directions is one of i and one of its peer. */
  lemma BothSides(s: State, i: Side)
    requires Shape(s) && DirAt(s, i) && DirAt(s, Peer(i))
    requires !s.failed && NegInv(s)
    ensures Inv(s)
  {
    forall j: Side ensures DirAt(s, j) {
      assert j == i || j == Peer(i);
    }
  }

  lemma AskKeepsInv(s: State)
    requires Inv(s) && Can(s, Ask)
    ensures Inv(Do(s, Ask))
  {
    assert DirAt(s, 0) && DirAt(s, 1);
    var m := Request(s.ends[0].latest);
    OtherReplySide(s.ends[1], s.wire[0], s.ends[0].jobs, s.wire[1], m);
    OtherRequestSide(s.ends[0], s.wire[1], s.ends[1].jobs, s.wire[0], m);
    BothSides(Do(s, Ask), 0);
  }

  /** The client answers the request and is running. */
  lemma RequestKeepsInv(s: State, i: Side)
    requires Inv(s) && Can(s, Deliver(i)) && !s.ends[i].running && i == 1
    ensures Inv(DoDeliver(s, i))
  {
    assert DirAt(s, 0) && DirAt(s, 1);
    var m, v := s.wire[1][0], Version(Agreed(s));
    VersionLineParses(m.version);
    OtherReplySide(s.ends[1], s.wire[0], s.ends[0].jobs, s.wire[1], m);
    OtherRequestSide(s.ends[0], s.wire[1], s.ends[1].jobs, s.wire[0], m);
    OtherReplySide(s.ends[0], s.wire[1][1..], s.ends[1].jobs, s.wire[0], v);
    OtherRequestSide(s.ends[1], s.wire[0], s.ends[0].jobs, s.wire[1][1..], v);
    BothSides(DoDeliver(s, i), i);
  }

  /** The server reads the answer and is running. */
  lemma VersionKeepsInv(s: State, i: Side)
    requires Inv(s) && Can(s, Deliver(i)) && !s.ends[i].running && i == 0
    ensures Inv(DoDeliver(s, i))
  {
    assert DirAt(s, 0) && DirAt(s, 1);
    var m := s.wire[0][0];
    VersionLineParses(m.version);
    OtherReplySide(s.ends[0], s.wire[1], s.ends[1].jobs, s.wire[0], m);
    OtherRequestSide(s.ends[1], s.wire[0], s.ends[0].jobs, s.wire[1], m);
    BothSides(DoDeliver(s, i), i);
  }

  /** Ordinary traffic does not disturb the negotiation. */
  lemma DeliverKeepsNeg(s: State, i: Side)
    requires Shape(s) && NegInv(s) && Can(s, Deliver(i)) && s.ends[i].running
    ensures s.wire[i][0].CallMsg? || s.wire[i][0].ReplyMsg?
    ensures Shape(DoDeliver(s, i)) && NegInv(DoDeliver(s, i))
  {
    assert CallsOnly(s.wire[i]);
    var s1 := Popped(s, i);
    assert DoDeliver(s, i) == Receive(s1, i, ParseRunning(Format(s.wire[i][0])));
    ReceiveKeepsNeg(s, s1, DoDeliver(s, i), i);
  }

  lemma ReceiveKeepsNeg(s: State, s1: State, s': State, i: Side)
    requires Shape(s) && NegInv(s) && s.wire[i] != [] && s.ends[i].running && Shape(s')
    requires s1 == s.(wire := s.wire[i := s.wire[i][1..]])
    requires s'.wire == s1.wire && s'.asked == s.asked && s'.ends[Peer(i)] == s.ends[Peer(i)]
    requires var e, e' := s.ends[i], s'.ends[i];
             e'.latest == e.latest && e'.running == e.running && e'.version == e.version
    ensures NegInv(s')
  {
  }

  lemma PostKeepsNeg(s: State, i: Side, m: Msg)
    requires Shape(s) && NegInv(s) && (m.CallMsg? || m.ReplyMsg?)
    requires s.ends[Peer(i)].running
    ensures NegInv(Post(s, i, m))
  {
    if i == 0 && !s.ends[0].running {
      assert (s.wire[0] + [m])[1..] == s.wire[0][1..] + [m];
    }
  }

  lemma CallArrivesShape(s: State, i: Side)
    requires Shape(s) && Can(s, Deliver(i)) && s.ends[i].running && s.wire[i][0].CallMsg?
    ensures var s', e, m := DoDeliver(s, i), s.ends[i], s.wire[i][0];
            && s'.ends == s.ends[i := e.(jobs := e.jobs + [Job(m.id, m.text)])]
            && s'.wire == s.wire[i := s.wire[i][1..]] && s'.failed == s.failed
  {
    CallLineParses(s.wire[i][0].id, s.wire[i][0].text);
  }

  lemma CallArrives(s: State, i: Side)
    requires Inv(s) && Can(s, Deliver(i)) && s.ends[i].running && s.wire[i][0].CallMsg?
    ensures Inv(DoDeliver(s, i))
  {
    assert DirAt(s, 0) && DirAt(s, 1);
    var m, p, s' := s.wire[i][0], Peer(i), DoDeliver(s, i);
    CallArrivesShape(s, i);
    OtherReplySide(s.ends[i], s.wire[p], s.ends[p].jobs, s.wire[i], m);
    CallDelivered(s.ends[p], s.wire[i], s.ends[i].jobs, s.wire[p]);
    DeliverKeepsNeg(s, i);
    SameCalls(s.ends[i], s'.ends[i], s.wire[p], s.ends[p].jobs, s'.wire[i]);
    BothSides(s', i);
  }

  lemma SameCalls(e: Endpoint, e': Endpoint, reqs: seq<Msg>, jobs: seq<Job>, reps: seq<Msg>)
    requires DirInv(e, reqs, jobs, reps) && e'.calls == e.calls && e'.returned == e.returned
    ensures DirInv(e', reqs, jobs, reps)
  {}

  lemma ReplyArrivesShape(s: State, i: Side)
    requires Shape(s) && Can(s, Deliver(i)) && s.ends[i].running && s.wire[i][0].ReplyMsg?
    requires s.wire[i][0].id in s.ends[i].calls
    requires s.ends[i].calls[s.wire[i][0].id].phase in {Waiting, Abandoned}
    ensures var s', e, m := DoDeliver(s, i), s.ends[i], s.wire[i][0];
            && s'.ends == s.ends[i := if e.calls[m.id].phase == Waiting
                                      then SetCall(e, m.id, e.calls[m.id].(phase := Answered(m.reply)))
                                      else e.(calls := e.calls - {m.id})]
            && s'.wire == s.wire[i := s.wire[i][1..]] && s'.failed == s.failed
  {
    ReplyLineParses(s.wire[i][0].id, s.wire[i][0].reply);
  }

  lemma ReplyKeepsCaller(s: State, i: Side)
    requires Shape(s) && DirAt(s, i) && Can(s, Deliver(i)) && s.ends[i].running && s.wire[i][0].ReplyMsg?
    ensures s.wire[i][0].id in s.ends[i].calls && s.ends[i].calls[s.wire[i][0].id].phase in {Waiting, Abandoned}
    ensures DirAt(DoDeliver(s, i), i)
  {
    ReplyDelivered(s.ends[i], s.wire[Peer(i)], s.ends[Peer(i)].jobs, s.wire[i]);
    ReplyArrivesShape(s, i);
  }

  lemma ReplyKeepsOther(s: State, i: Side)
    requires Shape(s) && DirAt(s, Peer(i)) && Can(s, Deliver(i)) && s.ends[i].running && s.wire[i][0].ReplyMsg?
    requires s.wire[i][0].id in s.ends[i].calls && s.ends[i].calls[s.wire[i][0].id].phase in {Waiting, Abandoned}
    ensures DirAt(DoDeliver(s, i), Peer(i))
  {
    var p := Peer(i);
    ReplyArrivesShape(s, i);
    OtherRequestSide(s.ends[p], s.wire[i], s.ends[i].jobs, s.wire[p], s.wire[i][0]);
  }

  lemma ReplyArrives(s: State, i: Side)
    requires Inv(s) && Can(s, Deliver(i)) && s.ends[i].running && s.wire[i][0].ReplyMsg?
    ensures Inv(DoDeliver(s, i))
  {
    assert DirAt(s, 0) && DirAt(s, 1);
    ReplyKeepsCaller(s, i);
    ReplyKeepsOther(s, i);
    ReplyArrivesShape(s, i);
    DeliverKeepsNeg(s, i);
    BothSides(DoDeliver(s, i), i);
  }

  lemma DeliverKeepsInv(s: State, i: Side)
    requires Inv(s) && Can(s, Deliver(i))
    ensures Inv(DoDeliver(s, i))
  {
    if !s.ends[i].running {
      if i == 1 { RequestKeepsInv(s, i); } else { VersionKeepsInv(s, i); }
    } else if s.wire[i][0].CallMsg? {
      CallArrives(s, i);
    } else {
      DeliverKeepsNeg(s, i);
      ReplyArrives(s, i);
    }
  }

  lemma AllocateKeepsInv(s: State, i: Side, text: string)
    requires Inv(s) && Can(s, Allocate(i, text))
    ensures Inv(Do(s, Allocate(i, text)))
  {
    assert DirAt(s, 0) && DirAt(s, 1);
    var p := Peer(i);
    CallMoved(s.ends[i], s.wire[p], s.ends[p].jobs, s.wire[i], CallId(s.ends[i].nextId), Call(text, Allocated, []));
    BothSides(Do(s, Allocate(i, text)), i);
  }

  lemma SendShape(s: State, i: Side, id: int)
    requires Shape(s) && NegInv(s) && Can(s, Send(i, id))
    ensures var s', e := Do(s, Send(i, id)), s.ends[i];
            && s'.ends == s.ends[i := SetCall(e, id, e.calls[id].(phase := Sent))]
            && s'.wire == s.wire[Peer(i) := s.wire[Peer(i)] + [CallMsg(id, e.calls[id].text)]]
            && s'.failed == s.failed && Shape(s') && NegInv(s')
  {
    var e := s.ends[i];
    PostKeepsNeg(s, Peer(i), CallMsg(id, e.calls[id].text));
  }

  lemma SendKeepsCaller(s: State, i: Side, id: int)
    requires Shape(s) && DirAt(s, i) && NegInv(s) && Can(s, Send(i, id))
    ensures DirAt(Do(s, Send(i, id)), i)
  {
    CallSent(s.ends[i], s.wire[Peer(i)], s.ends[Peer(i)].jobs, s.wire[i], id);
    SendShape(s, i, id);
  }

  lemma SendKeepsOther(s: State, i: Side, id: int)
    requires Shape(s) && DirAt(s, Peer(i)) && NegInv(s) && Can(s, Send(i, id))
    ensures DirAt(Do(s, Send(i, id)), Peer(i))
  {
    var p := Peer(i);
    OtherReplySide(s.ends[p], s.wire[i], s.ends[i].jobs, s.wire[p], CallMsg(id, s.ends[i].calls[id].text));
    SendShape(s, i, id);
  }

  lemma SendKeepsInv(s: State, i: Side, id: int)
    requires Inv(s) && Can(s, Send(i, id))
    ensures Inv(Do(s, Send(i, id)))
  {
    assert DirAt(s, 0) && DirAt(s, 1);
    SendKeepsCaller(s, i, id);
    SendKeepsOther(s, i, id);
    SendShape(s, i, id);
    BothSides(Do(s, Send(i, id)), i);
  }

  lemma SleepKeepsInv(s: State, i: Side, id: int)
    requires Inv(s) && Can(s, Sleep(i, id))
    ensures Inv(Do(s, Sleep(i, id)))
  {
    assert DirAt(s, 0) && DirAt(s, 1);
    var p := Peer(i);
    CallMoved(s.ends[i], s.wire[p], s.ends[p].jobs, s.wire[i], id, s.ends[i].calls[id].(phase := Waiting));
    BothSides(Do(s, Sleep(i, id)), i);
  }

  lemma ServeShape(s: State, i: Side, k: nat, reply: Reply)
    requires Shape(s) && NegInv(s) && Can(s, Serve(i, k, reply))
    requires s.ends[i].jobs[k].id in s.ends[Peer(i)].calls
    ensures var s', e, p := DoServe(s, i, k, reply), s.ends[i], Peer(i);
            && s'.ends[i] == e.(jobs := e.jobs[..k] + e.jobs[k + 1..])
            && s'.ends[p] == ServedCall(s.ends[p], e.jobs[k], reply)
            && s'.wire == s.wire[p := s.wire[p] + [ReplyMsg(e.jobs[k].id, reply)]]
            && s'.failed == s.failed && Shape(s') && NegInv(s')
  {
    PostKeepsNeg(s, Peer(i), ReplyMsg(s.ends[i].jobs[k].id, reply));
  }

  /** The direction in which the served call was made. */
  lemma ServeKeepsCaller(s: State, i: Side, k: nat, reply: Reply)
    requires Shape(s) && NegInv(s) && Can(s, Serve(i, k, reply)) && DirAt(s, Peer(i))
    ensures s.ends[i].jobs[k].id in s.ends[Peer(i)].calls
    ensures Shape(DoServe(s, i, k, reply)) && DirAt(DoServe(s, i, k, reply), Peer(i))
  {
    JobServed(s.ends[Peer(i)], s.wire[i], s.ends[i].jobs, s.wire[Peer(i)], k, reply);
    ServeShape(s, i, k, reply);
  }

  /** The other direction, which shares the wire. */
  lemma ServeKeepsOther(s: State, i: Side, k: nat, reply: Reply)
    requires Shape(s) && NegInv(s) && Can(s, Serve(i, k, reply)) && DirAt(s, i)
    requires s.ends[i].jobs[k].id in s.ends[Peer(i)].calls
    ensures Shape(DoServe(s, i, k, reply)) && DirAt(DoServe(s, i, k, reply), i)
  {
    var p, e, s' := Peer(i), s.ends[i], DoServe(s, i, k, reply);
    ServeShape(s, i, k, reply);
    OtherRequestSide(e, s.wire[p], s.ends[p].jobs, s.wire[i], ReplyMsg(e.jobs[k].id, reply));
    SameCalls(e, s'.ends[i], s'.wire[p], s.ends[p].jobs, s.wire[i]);
  }

  lemma ServeKeepsInv(s: State, i: Side, k: nat, reply: Reply)
    requires Inv(s) && Can(s, Serve(i, k, reply))
    ensures Inv(DoServe(s, i, k, reply))
  {
    assert DirAt(s, 0) && DirAt(s, 1);
    ServeKeepsCaller(s, i, k, reply);
    ServeKeepsOther(s, i, k, reply);
    ServeShape(s, i, k, reply);
    BothSides(DoServe(s, i, k, reply), i);
  }

  lemma FinishKeepsInv(s: State, i: Side, id: int)
    requires Inv(s) && Can(s, Finish(i, id))
    ensures Inv(DoFinish(s, i, id))
  {
    assert DirAt(s, 0) && DirAt(s, 1);
    var p, e := Peer(i), s.ends[i];
    var c := e.calls[id];
    CallFinished(e, s.wire[p], s.ends[p].jobs, s.wire[i], id);
    if c.phase.reply.Raised? {
      CallMoved(e.(returned := e.returned + [Return(c.text, c.phase.reply, c.served, true)]),
                s.wire[p], s.ends[p].jobs, s.wire[i], id, c.(phase := Gave(c.phase.reply.error)));
    }
    BothSides(DoFinish(s, i, id), i);
  }

  lemma WakeUpKeepsInv(s: State, i: Side, id: int, junk: Option<string>)
    requires Inv(s) && Can(s, WakeUp(i, id, junk))
    ensures Inv(DoWakeUp(s, i, id, junk))
  {
    assert DirAt(s, 0) && DirAt(s, 1);
    var p, e := Peer(i), s.ends[i];
    var c := e.calls[id];
    var e1 := e.(returned := e.returned + [Return(c.text, Value(junk), c.served, false)]);
    assert DirInv(e1, s.wire[p], s.ends[p].jobs, s.wire[i]);
    CallMoved(e1, s.wire[p], s.ends[p].jobs, s.wire[i], id, c.(phase := Abandoned));
    BothSides(DoWakeUp(s, i, id, junk), i);
  }

  lemma DoKeepsInv(s: State, a: Action)
    requires Inv(s) && Can(s, a)
    ensures Inv(Do(s, a))
  {
    match a
    case Ask => AskKeepsInv(s);
    case Deliver(i) => DeliverKeepsInv(s, i);
    case Allocate(i, text) => AllocateKeepsInv(s, i, text);
    case Send(i, id) => SendKeepsInv(s, i, id);
    case Sleep(i, id) => SleepKeepsInv(s, i, id);
    case Serve(i, k, reply) => ServeKeepsInv(s, i, k, reply);
    case Finish(i, id) => FinishKeepsInv(s, i, id);
    case WakeUp(i, id, junk) => WakeUpKeepsInv(s, i, id, junk);
  }

  lemma StepKeepsInv(s: State, s': State)
    requires Inv(s) && Step(s, s')
    ensures Inv(s')
  {
    var a :| Can(s, a) && s' == Do(s, a);
    DoKeepsInv(s, a);
  }

  lemma InitHolds(s: State)
    requires Init(s)
    ensures Inv(s)
  {
    assert DirAt(s, 0) && DirAt(s, 1);
    BothSides(s, 0);
  }

  lemma {:induction false} RunKeepsInv(r: seq<State>, i: nat)
    requires Run(r) && i < |r|
    ensures Inv(r[i])
    decreases i
  {
    if i == 0 {
      InitHolds(r[0]);
    } else {
      RunKeepsInv(r, i - 1);
      assert Step(r[i - 1], r[i - 1 + 1]);
      StepKeepsInv(r[i - 1], r[i]);
    }
  }

  // ---- what the invariant gives ------------------------------------------------------------

  /** Every textRPC_call that has returned after its return had come was dispatched by the peer
      exactly once, with its own text, and returned what that dispatch produced, in whatever
      order the returns came back. No assertion fails and no line arrives that its receiver does
      not understand: in particular no call or return reaches an endpoint that is still
      negotiating. */
  lemma CallsGetTheirOwnReply(r: seq<State>, n: nat, i: Side, k: nat)
    requires Run(r) && n < |r| && k < |r[n].ends[i].returned|
    ensures !r[n].failed
    ensures var ret := r[n].ends[i].returned[k];
            ret.answered ==> ret.served == [Served(ret.text, ret.reply)]
  {
    RunKeepsInv(r, n);
    assert DirAt(r[n], i);
  }

  /** That condition is exact. A caller woken before its return has come returns whatever its
      record holds: any text at all, whatever has been dispatched or not. */
  lemma WokenTooEarly(s: State, i: Side, id: int, junk: Option<string>)
    requires Inv(s) && id in s.ends[i].calls && s.ends[i].calls[id].phase == Waiting
    ensures Can(s, WakeUp(i, id, junk)) && Inv(Do(s, WakeUp(i, id, junk)))
    ensures var c, e' := s.ends[i].calls[id], Do(s, WakeUp(i, id, junk)).ends[i];
            e'.returned == s.ends[i].returned + [Return(c.text, Value(junk), c.served, false)]
  {
    WakeUpKeepsInv(s, i, id, junk);
  }

  predicate Expected(e: Endpoint, m: Option<Msg>) {
    match m
    case Some(CallMsg(_, _)) => true
    case Some(ReplyMsg(id, _)) => id in e.calls && e.calls[id].phase in {Waiting, Abandoned}
    case _ => false
  }

  /** A line that its receiver understands, and for which the assertions hold. */
  predicate Understood(e: Endpoint, line: string) {
    if e.running then Expected(e, ParseRunning(line))
    else
      match ParseNegotiation(line)
      case Some(Request(_)) => true
      case Some(Version(v)) => e.version == -1 && v <= e.latest
      case _ => false
  }

  /** Only the reading of a line can fail, and does so exactly if it is not understood. */
  lemma StepFailsIff(s: State, a: Action)
    requires Shape(s) && Can(s, a)
    ensures Do(s, a).failed <==> s.failed || (a.Deliver? && !Understood(s.ends[a.to], Format(s.wire[a.to][0])))
  {
    match a
    case Deliver(i) => LineFailsIff(Popped(s, i), i, Format(s.wire[i][0]));
    case _ =>
  }

  lemma LineFailsIff(s: State, i: Side, line: string)
    requires Shape(s)
    ensures TakeLine(s, i, line).failed <==> s.failed || !Understood(s.ends[i], line)
  {
    if s.ends[i].running {
      MessageFailsIff(s, i, ParseRunning(line));
    }
  }

  lemma MessageFailsIff(s: State, i: Side, m: Option<Msg>)
    requires Shape(s)
    ensures Receive(s, i, m).failed <==> s.failed || !Expected(s.ends[i], m)
  {}

  /** The calls of an endpoint that have not returned. */
  ghost function OpenCalls(e: Endpoint): set<int> {
    set id | id in e.calls && !e.calls[id].phase.Gave? && !e.calls[id].phase.Abandoned?
  }

  lemma FinishCloses(s: State, i: Side, id: int)
    requires Shape(s) && Can(s, Finish(i, id))
    ensures var e, e' := s.ends[i], DoFinish(s, i, id).ends[i];
            OpenCalls(e') == OpenCalls(e) - {id} && id in OpenCalls(e) && |e'.returned| == |e.returned| + 1
  {}

  lemma WakeUpCloses(s: State, i: Side, id: int, junk: Option<string>)
    requires Shape(s) && Can(s, WakeUp(i, id, junk))
    ensures var e, e' := s.ends[i], DoWakeUp(s, i, id, junk).ends[i];
            OpenCalls(e') == OpenCalls(e) - {id} && id in OpenCalls(e) && |e'.returned| == |e.returned| + 1
  {}

  lemma AllocateOpens(s: State, i: Side, text: string)
    requires Shape(s) && Can(s, Allocate(i, text))
    ensures var e, e', id := s.ends[i], DoAllocate(s, i, text).ends[i], CallId(s.ends[i].nextId);
            OpenCalls(e') == OpenCalls(e) + {id} && id !in OpenCalls(e) && e'.returned == e.returned
  {}

  lemma MessageKeepsOpen(s: State, i: Side, m: Option<Msg>)
    requires Shape(s)
    ensures OpenCalls(Receive(s, i, m).ends[i]) == OpenCalls(s.ends[i])
    ensures Receive(s, i, m).ends[i].returned == s.ends[i].returned
  {}

  lemma DeliverKeepsOpen(s: State, i: Side, j: Side)
    requires Shape(s) && Can(s, Deliver(j))
    ensures OpenCalls(DoDeliver(s, j).ends[i]) == OpenCalls(s.ends[i])
    ensures DoDeliver(s, j).ends[i].returned == s.ends[i].returned
  {
    assert i == j || i == Peer(j);
    if s.ends[j].running { MessageKeepsOpen(Popped(s, j), j, ParseRunning(Format(s.wire[j][0]))); }
  }

  lemma ServeKeepsOpen(s: State, i: Side, j: Side, k: nat, reply: Reply)
    requires Shape(s) && Can(s, Serve(j, k, reply))
    ensures OpenCalls(DoServe(s, j, k, reply).ends[i]) == OpenCalls(s.ends[i])
    ensures DoServe(s, j, k, reply).ends[i].returned == s.ends[i].returned
  {}

  /** Every call that is made returns at most once, and is open until then: calls that have returned
      and open ones are together as many as have been made. */
  lemma CallsAddUp(s: State, a: Action, i: Side)
    requires Shape(s) && Can(s, a)
    ensures var e, e' := s.ends[i], Do(s, a).ends[i];
            |OpenCalls(e')| + |e'.returned| ==
            |OpenCalls(e)| + |e.returned| + if a.Allocate? && a.at == i then 1 else 0
  {
    match a
    case Ask =>
    case Deliver(j) => DeliverKeepsOpen(s, i, j);
    case Allocate(j, text) => AllocateOpens(s, j, text);
    case Send(_, _) => assert OpenCalls(Do(s, a).ends[i]) == OpenCalls(s.ends[i]);
    case Sleep(_, _) => assert OpenCalls(Do(s, a).ends[i]) == OpenCalls(s.ends[i]);
    case Serve(j, k, reply) => ServeKeepsOpen(s, i, j, k, reply);
    case Finish(j, id) => FinishCloses(s, j, id);
    case WakeUp(j, id, junk) => WakeUpCloses(s, j, id, junk);
  }

  lemma {:induction false} LatestStays(r: seq<State>, n: nat)
    requires Run(r) && n < |r|
    ensures Shape(r[0]) && Shape(r[n])
    ensures r[n].ends[0].latest == r[0].ends[0].latest && r[n].ends[1].latest == r[0].ends[1].latest
    decreases n
  {
    if n > 0 {
      LatestStays(r, n - 1);
      assert Step(r[n - 1], r[n - 1 + 1]);
      assert Keeps(r[n - 1], r[n]);
    }
  }

  /** An endpoint that is running has a version that both endpoints know, and the latest of one of
      them, so that both have the same; the next line for an endpoint that is not running is never
      a call or a return. */
  lemma VersionsAgree(r: seq<State>, n: nat, i: Side)
    requires Run(r) && n < |r|
    ensures !r[n].failed
    ensures r[n].ends[i].running ==>
              var v, a, b := r[n].ends[i].version, r[0].ends[0].latest, r[0].ends[1].latest;
              && v <= a && v <= b && v in {a, b}
              && (r[n].ends[Peer(i)].running ==> r[n].ends[Peer(i)].version == v)
    ensures !r[n].ends[i].running && r[n].wire[i] != [] ==>
              !r[n].wire[i][0].CallMsg? && !r[n].wire[i][0].ReplyMsg?
  {
    RunKeepsInv(r, n);
    assert NegInv(r[n]);
    NextLine(r[n], i);
    NextLine(r[n], Peer(i));
    LatestStays(r, n);
  }

  lemma NextLine(s: State, i: Side)
    requires Shape(s) && NegInv(s)
    ensures s.ends[i].running ==> s.ends[i].version == Agreed(s)
    ensures !s.ends[i].running && s.wire[i] != [] ==> !s.wire[i][0].CallMsg? && !s.wire[i][0].ReplyMsg?
  {}

  function StepsToRunning(s: State): nat
    requires Shape(s)
  {
    if s.ends[0].running then 0 else if s.ends[1].running then 1 else if s.asked then 2 else 3
  }

  /** No step takes the negotiation back. */
  lemma NegotiationNeverUndone(s: State, a: Action)
    requires Shape(s) && Can(s, a)
    ensures Shape(Do(s, a)) && StepsToRunning(Do(s, a)) <= StepsToRunning(s)
  {
    assert Keeps(s, Do(s, a));
  }

  /** Both endpoints reach the running state: until then one particular step is possible and
      brings them nearer. */
  lemma NegotiationAdvances(s: State)
    requires Inv(s) && StepsToRunning(s) > 0
    ensures var a := if StepsToRunning(s) == 3 then Ask else Deliver(StepsToRunning(s) - 1);
            Can(s, a) && Shape(Do(s, a)) && StepsToRunning(Do(s, a)) == StepsToRunning(s) - 1
  {
    if StepsToRunning(s) < 3 {
      VersionLineParses(s.wire[StepsToRunning(s) - 1][0].version);
    }
  }

  /** What may happen from a state on. */
  ghost predicate Continues(s: State, r: seq<State>) {
    && |r| > 0 && r[0] == s
    && (forall i :: 0 <= i < |r| ==> Shape(r[i]))
    && forall i :: 0 <= i < |r| - 1 ==> Step(r[i], r[i + 1])
  }

  lemma Prepend(s: State, a: Action, r: seq<State>)
    requires Shape(s) && Can(s, a) && Continues(Do(s, a), r)
    ensures Continues(s, [s] + r)
  {
    var r' := [s] + r;
    forall i | 0 <= i < |r'| - 1 ensures Step(r'[i], r'[i + 1]) {
      if i > 0 { assert Step(r[i - 1], r[i - 1 + 1]); }
    }
  }

  /** From every state at most three steps bring both endpoints into the running state. */
  lemma {:induction false} NegotiationCanEnd(s: State) returns (r: seq<State>)
    requires Inv(s)
    ensures Continues(s, r) && |r| == StepsToRunning(s) + 1
    ensures var s' := r[|r| - 1]; s'.ends[0].running && s'.ends[1].running
    decreases StepsToRunning(s)
  {
    if StepsToRunning(s) == 0 {
      r := [s];
    } else {
      var a := if StepsToRunning(s) == 3 then Ask else Deliver(StepsToRunning(s) - 1);
      NegotiationAdvances(s);
      DoKeepsInv(s, a);
      var r' := NegotiationCanEnd(Do(s, a));
      Prepend(s, a, r');
      r := [s] + r';
    }
  }

  lemma OneToken(e: Endpoint, reqs: seq<Msg>, jobs: seq<Job>, reps: seq<Msg>, id: int)
    requires DirInv(e, reqs, jobs, reps) && Pending(e.calls, id)
    ensures TokenCount(reqs, jobs, reps, id) == 1
  {}

  ghost predicate HasToken(s: State, i: Side, id: int)
    requires Shape(s)
  {
    TokenCount(s.wire[Peer(i)], s.ends[Peer(i)].jobs, s.wire[i], id) == 1
  }

  ghost predicate NotLost(s: State, i: Side, id: int)
    requires Shape(s) && id in s.ends[i].calls
  {
    match s.ends[i].calls[id].phase
    case Allocated => Can(s, Send(i, id))
    case Sent => Can(s, Sleep(i, id)) && HasToken(s, i, id)
    case Waiting => HasToken(s, i, id)
    case Abandoned => HasToken(s, i, id)
    case Answered(_) => Can(s, Finish(i, id))
    case Gave(_) => true
  }

  lemma TokenOfPending(s: State, i: Side, id: int)
    requires Shape(s) && DirAt(s, i) && Pending(s.ends[i].calls, id)
    ensures HasToken(s, i, id)
  {
    OneToken(s.ends[i], s.wire[Peer(i)], s.ends[Peer(i)].jobs, s.wire[i], id);
  }

  /** A call is never lost. One that is not finished can move by itself, or the line or job
      it consists of is there to be moved; and a caller asleep has not been answered. */
  lemma CallNotLost(r: seq<State>, n: nat, i: Side, id: int)
    requires Run(r) && n < |r| && id in r[n].ends[i].calls
    ensures NotLost(r[n], i, id)
  {
    RunKeepsInv(r, n);
    InvNotLost(r[n], i, id);
  }

  lemma InvNotLost(s: State, i: Side, id: int)
    requires Inv(s) && id in s.ends[i].calls
    ensures NotLost(s, i, id)
  {
    assert DirAt(s, i);
    if Pending(s.ends[i].calls, id) { TokenOfPending(s, i, id); }
  }
}
