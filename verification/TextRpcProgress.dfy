/**
  Progress of the text RPC protocol: a call that has been sent comes nearer to its answer with
  some step that is always possible, and no step of anybody takes it further away.
 */
module TextRpcProgress {
  import opened Wrappers
  import opened TextRpcLines
  import opened TextRpc

  // ---- the first of its kind in a line --------------------------------------------------

  function First<T>(w: seq<T>, p: T -> bool): (k: nat)
    ensures k <= |w|
    ensures k < |w| ==> p(w[k])
    ensures forall j :: 0 <= j < k ==> !p(w[j])
  {
    if w == [] || p(w[0]) then 0 else 1 + First(w[1..], p)
  }

  lemma FirstInPrefix<T>(w: seq<T>, w': seq<T>, p: T -> bool)
    requires w <= w' && First(w, p) < |w|
    ensures First(w', p) == First(w, p)
  {
    var k := First(w, p);
    assert w'[k] == w[k] && forall j :: 0 <= j < k ==> w'[j] == w[j];
  }

  lemma FirstAfterPop<T>(w: seq<T>, p: T -> bool)
    requires w != [] && !p(w[0])
    ensures First(w[1..], p) == First(w, p) - 1
  {}

  lemma FirstFinds<T>(w: seq<T>, p: T -> bool, j: nat)
    requires j < |w| && p(w[j])
    ensures First(w, p) <= j
  {}

  lemma FirstAfterRemoval<T>(w: seq<T>, p: T -> bool, k: nat)
    requires First(w, p) < |w| && k < |w| && !p(w[k])
    ensures First(w[..k] + w[k + 1..], p) < |w| - 1
  {
    var j := First(w, p);
    RemovedElsewhere(w, k, j);
    FirstFinds(w[..k] + w[k + 1..], p, if j < k then j else j - 1);
  }

  lemma RemovedElsewhere<T>(w: seq<T>, k: nat, j: nat)
    requires k < |w| && j < |w| && j != k
    ensures (w[..k] + w[k + 1..])[if j < k then j else j - 1] == w[j]
  {}

  function ReplyFor(id: int): Msg -> bool { (m: Msg) => m.ReplyMsg? && m.id == id }
  function CallFor(id: int): Msg -> bool { (m: Msg) => m.CallMsg? && m.id == id }
  function JobFor(id: int): Job -> bool { (j: Job) => j.id == id }

  /** What is counted is there to be found. */
  lemma {:induction false} CountedReply(w: seq<Msg>, id: int)
    requires ReplyIds(w)[id] > 0
    ensures First(w, ReplyFor(id)) < |w|
  {
    if !ReplyFor(id)(w[0]) { CountedReply(w[1..], id); }
  }

  lemma {:induction false} CountedCall(w: seq<Msg>, id: int)
    requires CallIds(w)[id] > 0
    ensures First(w, CallFor(id)) < |w|
  {
    if !CallFor(id)(w[0]) { CountedCall(w[1..], id); }
  }

  lemma {:induction false} CountedJob(jobs: seq<Job>, id: int)
    requires JobIds(jobs)[id] > 0
    ensures First(jobs, JobFor(id)) < |jobs|
  {
    if !JobFor(id)(jobs[0]) { CountedJob(jobs[1..], id); }
  }

  // ---- how far a call is from its answer ------------------------------------------------

  /** The head of a line has to wait until its caller is asleep. */
  function Blocked(s: State, j: Side): nat
    requires Shape(s)
  {
    if s.wire[j] != [] && !Can(s, Deliver(j)) then 1 else 0
  }

  /** Stage 3: the call is on its way; stage 2: it is a job of the peer; stage 1: its return is on
      its way. `lines` counts the lines before it, `blocked` whether the first of them waits. */
  datatype Distance = Distance(stage: nat, lines: nat, blocked: nat)

  predicate Nearer(d: Distance, d': Distance) {
    || d.stage < d'.stage
    || (d.stage == d'.stage && d.lines < d'.lines)
    || (d.stage == d'.stage && d.lines == d'.lines && d.blocked < d'.blocked)
  }

  predicate Returning(s: State, i: Side, id: int)
    requires Shape(s)
  {
    First(s.wire[i], ReplyFor(id)) < |s.wire[i]|
  }

  predicate AtPeer(s: State, i: Side, id: int)
    requires Shape(s)
  {
    First(s.ends[Peer(i)].jobs, JobFor(id)) < |s.ends[Peer(i)].jobs|
  }

  predicate Calling(s: State, i: Side, id: int)
    requires Shape(s)
  {
    First(s.wire[Peer(i)], CallFor(id)) < |s.wire[Peer(i)]|
  }

  function ToAnswer(s: State, i: Side, id: int): Distance
    requires Shape(s)
  {
    if Returning(s, i, id) then Distance(1, First(s.wire[i], ReplyFor(id)), Blocked(s, i))
    else if AtPeer(s, i, id) then Distance(2, 0, 0)
    else Distance(3, First(s.wire[Peer(i)], CallFor(id)), Blocked(s, Peer(i)))
  }

  /** The caller has not been answered and waits for it, or is about to. */
  predicate Awaiting(s: State, i: Side, id: int)
    requires Shape(s)
  {
    id in s.ends[i].calls && s.ends[i].calls[id].phase in {Sent, Waiting}
  }

  /** It is in one of the three places. */
  lemma SomewhereUnderWay(s: State, i: Side, id: int)
    requires Inv(s) && Awaiting(s, i, id)
    ensures Returning(s, i, id) || AtPeer(s, i, id) || Calling(s, i, id)
  {
    assert DirAt(s, i);
    TokenOfPending(s, i, id);
    var p := Peer(i);
    if ReplyIds(s.wire[i])[id] > 0 {
      CountedReply(s.wire[i], id);
    } else if JobIds(s.ends[p].jobs)[id] > 0 {
      CountedJob(s.ends[p].jobs, id);
    } else {
      CountedCall(s.wire[p], id);
    }
  }

  // ---- what a step does to the lines ----------------------------------------------------

  lemma WireMoves(s: State, a: Action, j: Side)
    requires Shape(s) && Can(s, a)
    ensures a == Deliver(j) ==> Do(s, a).wire[j] == s.wire[j][1..]
    ensures a != Deliver(j) ==> s.wire[j] <= Do(s, a).wire[j]
  {
    match a
    case Ask =>
    case Deliver(i) => DeliverMovesWire(s, i, j);
    case Allocate(_, _) =>
    case Send(_, _) =>
    case Sleep(_, _) =>
    case Serve(i, k, reply) => ServeMovesWire(s, i, k, reply, j);
    case Finish(_, _) =>
    case WakeUp(_, _, _) =>
  }

  lemma DeliverMovesWire(s: State, i: Side, j: Side)
    requires Shape(s) && Can(s, Deliver(i))
    ensures i == j ==> DoDeliver(s, i).wire[j] == s.wire[j][1..]
    ensures i != j ==> s.wire[j] <= DoDeliver(s, i).wire[j]
  {
    assert j == i || j == Peer(i);
  }

  lemma ServeMovesWire(s: State, i: Side, k: nat, reply: Reply, j: Side)
    requires Shape(s) && Can(s, Serve(i, k, reply))
    ensures s.wire[j] <= DoServe(s, i, k, reply).wire[j]
  {
  }

  lemma ServeKeepsPeerJobs(s: State, i: Side, k: nat, reply: Reply)
    requires Shape(s) && Can(s, Serve(i, k, reply))
    ensures DoServe(s, i, k, reply).ends[Peer(i)].jobs == s.ends[Peer(i)].jobs
  {
  }

  lemma DeliverGrowsJobs(s: State, i: Side, j: Side)
    requires Shape(s) && Can(s, Deliver(i))
    ensures s.ends[j].jobs <= DoDeliver(s, i).ends[j].jobs
  {
    assert j == i || j == Peer(i);
  }

  lemma JobsGrow(s: State, a: Action, j: Side)
    requires Shape(s) && Can(s, a) && !(a.Serve? && a.at == j)
    ensures s.ends[j].jobs <= Do(s, a).ends[j].jobs
  {
    match a
    case Ask =>
    case Deliver(i) => DeliverGrowsJobs(s, i, j);
    case Allocate(_, _) =>
    case Send(_, _) =>
    case Sleep(_, _) =>
    case Serve(i, k, reply) => ServeKeepsPeerJobs(s, i, k, reply);
    case Finish(_, _) =>
    case WakeUp(_, _, _) =>
  }

  lemma JobServedAway(s: State, i: Side, k: nat, reply: Reply)
    requires Shape(s) && Can(s, Serve(i, k, reply))
    ensures var jobs := s.ends[i].jobs; Do(s, Serve(i, k, reply)).ends[i].jobs == jobs[..k] + jobs[k + 1..]
    ensures Do(s, Serve(i, k, reply)).wire[Peer(i)] == s.wire[Peer(i)] + [ReplyMsg(s.ends[i].jobs[k].id, reply)]
  {
  }

  predicate IsSent(e: Endpoint, id: int) { id in e.calls && e.calls[id].phase == Sent }

  lemma LineSendsNothing(s: State, i: Side, line: string, id: int)
    requires Shape(s)
    ensures IsSent(TakeLine(s, i, line).ends[i], id) ==> IsSent(s.ends[i], id)
  {
    if s.ends[i].running {
      MessageSendsNothing(s, i, ParseRunning(line), id);
    }
  }

  lemma MessageSendsNothing(s: State, i: Side, m: Option<Msg>, id: int)
    requires Shape(s)
    ensures IsSent(Receive(s, i, m).ends[i], id) ==> IsSent(s.ends[i], id)
  {
  }

  lemma DeliverSendsNothing(s: State, i: Side, j: Side, id: int)
    requires Shape(s) && Can(s, Deliver(i))
    ensures IsSent(DoDeliver(s, i).ends[j], id) ==> IsSent(s.ends[j], id)
  {
    assert j == i || j == Peer(i);
    LineSendsNothing(Popped(s, i), i, Format(s.wire[i][0]), id);
  }

  lemma ServeSendsNothing(s: State, i: Side, k: nat, reply: Reply, j: Side, id: int)
    requires Shape(s) && Can(s, Serve(i, k, reply))
    ensures IsSent(DoServe(s, i, k, reply).ends[j], id) ==> IsSent(s.ends[j], id)
  {
  }

  /** A call gets into the phase Sent only by being sent. */
  lemma SentBySending(s: State, a: Action, j: Side, id: int)
    requires Shape(s) && Can(s, a) && id in s.ends[j].calls && s.ends[j].calls[id].phase !in {Allocated, Sent}
    ensures !IsSent(Do(s, a).ends[j], id)
  {
    match a
    case Ask =>
    case Deliver(i) => DeliverSendsNothing(s, i, j, id);
    case Allocate(_, _) =>
    case Send(_, _) =>
    case Sleep(_, _) =>
    case Serve(i, k, reply) => ServeSendsNothing(s, i, k, reply, j, id);
    case Finish(_, _) =>
    case WakeUp(_, _, _) =>
  }

  /** The head of a line that is not blocked does not become so. */
  lemma BlockedNotRaised(s: State, a: Action, j: Side)
    requires Inv(s) && Can(s, a) && s.wire[j] != [] && a != Deliver(j)
    ensures Shape(Do(s, a)) && Blocked(Do(s, a), j) <= Blocked(s, j)
  {
    WireMoves(s, a, j);
    var m := s.wire[j][0];
    assert Do(s, a).wire[j][0] == m;
    if m.ReplyMsg? && Blocked(s, j) == 0 {
      assert DirAt(s, j);
      assert ReplyOk(s.ends[j].calls, m.id, m.reply);
      SentBySending(s, a, j, m.id);
    }
  }

  // ---- nearer with every step -----------------------------------------------------------

  ghost predicate NotSetBack(s: State, s': State, i: Side, id: int)
    requires Shape(s) && Shape(s')
  {
    var d, d' := ToAnswer(s, i, id), ToAnswer(s', i, id);
    d' == d || Nearer(d', d)
  }

  lemma ReturningNotSetBack(s: State, a: Action, i: Side, id: int)
    requires Inv(s) && Can(s, a) && Awaiting(s, i, id) && Returning(s, i, id) && Awaiting(Do(s, a), i, id)
    ensures NotSetBack(s, Do(s, a), i, id)
    ensures a == Deliver(i) ==> Nearer(ToAnswer(Do(s, a), i, id), ToAnswer(s, i, id))
  {
    var w, w' := s.wire[i], Do(s, a).wire[i];
    WireMoves(s, a, i);
    if a == Deliver(i) {
      if ReplyFor(id)(w[0]) {
        ReplyAnswers(s, i, id);
        assert false;
      }
      FirstAfterPop(w, ReplyFor(id));
    } else {
      FirstInPrefix(w, w', ReplyFor(id));
      BlockedNotRaised(s, a, i);
    }
  }

  /** The return that comes first in the line answers its call. */
  lemma ReplyAnswers(s: State, i: Side, id: int)
    requires Inv(s) && Can(s, Deliver(i)) && ReplyFor(id)(s.wire[i][0]) && Awaiting(s, i, id)
    ensures !Awaiting(Do(s, Deliver(i)), i, id)
    ensures id in Do(s, Deliver(i)).ends[i].calls
    ensures Do(s, Deliver(i)).ends[i].calls[id].phase == Answered(s.wire[i][0].reply)
    ensures Do(s, Deliver(i)).ends[i].calls[id].text == s.ends[i].calls[id].text
  {
    assert DirAt(s, i);
    NextLine(s, i);
    ReplyArrivesShape(s, i);
  }

  lemma AtPeerNotSetBack(s: State, a: Action, i: Side, id: int)
    requires Inv(s) && Can(s, a) && AtPeer(s, i, id)
    ensures Returning(Do(s, a), i, id) || AtPeer(Do(s, a), i, id)
  {
    var p := Peer(i);
    if a.Serve? && a.at == p {
      JobServedAway(s, p, a.k, a.reply);
      var jobs, w := s.ends[p].jobs, s.wire[i];
      if jobs[a.k].id == id {
        FirstFinds(w + [ReplyMsg(id, a.reply)], ReplyFor(id), |w|);
      } else {
        FirstAfterRemoval(jobs, JobFor(id), a.k);
      }
    } else {
      JobsGrow(s, a, p);
      FirstInPrefix(s.ends[p].jobs, Do(s, a).ends[p].jobs, JobFor(id));
    }
  }

  /** A call on its way that has moved up in the line, or stands where it stood. */
  lemma MovedUp(s: State, s': State, i: Side, id: int)
    requires Shape(s) && Shape(s') && !Returning(s, i, id) && !AtPeer(s, i, id)
    requires var f, f' := First(s.wire[Peer(i)], CallFor(id)), First(s'.wire[Peer(i)], CallFor(id));
             f' < f || (f' == f && Blocked(s', Peer(i)) <= Blocked(s, Peer(i)))
    ensures NotSetBack(s, s', i, id)
    ensures First(s'.wire[Peer(i)], CallFor(id)) < First(s.wire[Peer(i)], CallFor(id)) ==>
              Nearer(ToAnswer(s', i, id), ToAnswer(s, i, id))
  {
  }

  lemma CallRead(s: State, i: Side, id: int)
    requires Inv(s) && Can(s, Deliver(Peer(i))) && Calling(s, i, id) && !Returning(s, i, id) && !AtPeer(s, i, id)
    ensures Shape(Do(s, Deliver(Peer(i)))) && Nearer(ToAnswer(Do(s, Deliver(Peer(i))), i, id), ToAnswer(s, i, id))
  {
    var p := Peer(i);
    if CallFor(id)(s.wire[p][0]) {
      CallBecomesJob(s, p, id);
    } else {
      FirstAfterPop(s.wire[p], CallFor(id));
      MovedUp(s, DoDeliver(s, p), i, id);
    }
  }

  lemma CallingNotSetBack(s: State, a: Action, i: Side, id: int)
    requires Inv(s) && Can(s, a) && Calling(s, i, id) && !Returning(s, i, id) && !AtPeer(s, i, id)
    ensures NotSetBack(s, Do(s, a), i, id)
  {
    var p := Peer(i);
    if a == Deliver(p) {
      CallRead(s, i, id);
    } else {
      WireMoves(s, a, p);
      FirstInPrefix(s.wire[p], Do(s, a).wire[p], CallFor(id));
      BlockedNotRaised(s, a, p);
      MovedUp(s, Do(s, a), i, id);
    }
  }

  lemma CallBecomesJob(s: State, p: Side, id: int)
    requires Inv(s) && Can(s, Deliver(p)) && CallFor(id)(s.wire[p][0])
    ensures AtPeer(Do(s, Deliver(p)), Peer(p), id)
  {
    NextLine(s, p);
    CallArrivesShape(s, p);
    var jobs, m := s.ends[p].jobs, s.wire[p][0];
    FirstFinds(jobs + [Job(m.id, m.text)], JobFor(id), |jobs|);
  }

  /** No step of anybody takes a call further from its answer. */
  lemma CallNeverSetBack(s: State, a: Action, i: Side, id: int)
    requires Inv(s) && Can(s, a) && Awaiting(s, i, id) && Awaiting(Do(s, a), i, id)
    ensures NotSetBack(s, Do(s, a), i, id)
  {
    SomewhereUnderWay(s, i, id);
    if Returning(s, i, id) {
      ReturningNotSetBack(s, a, i, id);
    } else if AtPeer(s, i, id) {
      AtPeerNotSetBack(s, a, i, id);
    } else {
      CallingNotSetBack(s, a, i, id);
    }
  }

  /** The step that brings it nearer: the first line is read, or if that has to wait, its caller
      falls asleep; or the peer serves the job. */
  function NextStep(s: State, i: Side, id: int): Action
    requires Shape(s)
  {
    var p := Peer(i);
    if Returning(s, i, id) then Unblock(s, i)
    else if AtPeer(s, i, id) then Serve(p, First(s.ends[p].jobs, JobFor(id)), Value(None))
    else Unblock(s, p)
  }

  function Unblock(s: State, j: Side): Action
    requires Shape(s)
  {
    if Blocked(s, j) == 1 && s.wire[j][0].ReplyMsg? then Sleep(j, s.wire[j][0].id) else Deliver(j)
  }

  lemma UnblockHelps(s: State, j: Side)
    requires Inv(s) && s.wire[j] != []
    ensures Can(s, Unblock(s, j)) && Shape(Do(s, Unblock(s, j)))
    ensures Unblock(s, j) != Deliver(j) ==>
              && Blocked(s, j) == 1 && Blocked(Do(s, Unblock(s, j)), j) == 0
              && Do(s, Unblock(s, j)).wire == s.wire
  {
  }

  ghost predicate Advances(s: State, a: Action, i: Side, id: int)
    requires Shape(s)
  {
    && Can(s, a) && id in Do(s, a).ends[i].calls && id in s.ends[i].calls
    && Do(s, a).ends[i].calls[id].text == s.ends[i].calls[id].text
    && (|| Do(s, a).ends[i].calls[id].phase.Answered?
        || (Awaiting(Do(s, a), i, id) && Nearer(ToAnswer(Do(s, a), i, id), ToAnswer(s, i, id))))
  }

  predicate StaysAwaiting(s: State, s': State, i: Side, id: int)
    requires Shape(s) && Shape(s') && Awaiting(s, i, id)
  {
    Awaiting(s', i, id) && s'.ends[i].calls[id].text == s.ends[i].calls[id].text
  }

  /** A caller stays where it is, except when its own return is read or it falls asleep. */
  lemma SleepStaysAwaiting(s: State, i: Side, id: int, j: Side, k: int)
    requires Shape(s) && Awaiting(s, i, id) && Can(s, Sleep(j, k))
    ensures StaysAwaiting(s, Do(s, Sleep(j, k)), i, id)
  {
  }

  lemma ServeStaysAwaiting(s: State, i: Side, id: int, k: nat, reply: Reply)
    requires Shape(s) && Awaiting(s, i, id) && Can(s, Serve(Peer(i), k, reply))
    ensures StaysAwaiting(s, DoServe(s, Peer(i), k, reply), i, id)
  {
  }

  lemma DeliverStaysAwaiting(s: State, i: Side, id: int)
    requires Shape(s) && Awaiting(s, i, id) && Can(s, Deliver(Peer(i)))
    ensures StaysAwaiting(s, DoDeliver(s, Peer(i)), i, id)
  {
  }

  lemma OtherReplyRead(s: State, i: Side, id: int)
    requires Inv(s) && Awaiting(s, i, id) && Can(s, Deliver(i)) && !ReplyFor(id)(s.wire[i][0])
    ensures StaysAwaiting(s, Do(s, Deliver(i)), i, id)
  {
    assert DirAt(s, i);
    NextLine(s, i);
    if s.ends[i].running {
      DeliverKeepsNeg(s, i);
      if s.wire[i][0].CallMsg? { CallArrivesShape(s, i); } else { ReplyArrivesShape(s, i); }
    }
  }

  lemma ReturningAdvances(s: State, i: Side, id: int)
    requires Inv(s) && Awaiting(s, i, id) && Returning(s, i, id)
    ensures Advances(s, Unblock(s, i), i, id)
  {
    var a := Unblock(s, i);
    UnblockHelps(s, i);
    if a == Deliver(i) {
      if ReplyFor(id)(s.wire[i][0]) {
        ReplyAnswers(s, i, id);
      } else {
        OtherReplyRead(s, i, id);
        ReturningNotSetBack(s, a, i, id);
      }
    } else {
      SleepStaysAwaiting(s, i, id, a.at, a.id);
    }
  }

  lemma AtPeerAdvances(s: State, i: Side, id: int)
    requires Inv(s) && Awaiting(s, i, id) && AtPeer(s, i, id) && !Returning(s, i, id)
    ensures Advances(s, NextStep(s, i, id), i, id)
  {
    var p := Peer(i);
    var k, w := First(s.ends[p].jobs, JobFor(id)), s.wire[i];
    ServeStaysAwaiting(s, i, id, k, Value(None));
    JobServedAway(s, p, k, Value(None));
    FirstFinds(w + [ReplyMsg(id, Value(None))], ReplyFor(id), |w|);
  }

  lemma CallingAdvances(s: State, i: Side, id: int)
    requires Inv(s) && Awaiting(s, i, id) && Calling(s, i, id) && !Returning(s, i, id) && !AtPeer(s, i, id)
    ensures Advances(s, Unblock(s, Peer(i)), i, id)
  {
    var p := Peer(i);
    var a := Unblock(s, p);
    UnblockHelps(s, p);
    if a == Deliver(p) {
      DeliverStaysAwaiting(s, i, id);
      CallRead(s, i, id);
    } else {
      SleepStaysAwaiting(s, i, id, a.at, a.id);
    }
  }

  /** A call that has been sent and not answered is answered by its next step, or comes nearer. */
  lemma CallAdvances(s: State, i: Side, id: int)
    requires Inv(s) && Awaiting(s, i, id)
    ensures Advances(s, NextStep(s, i, id), i, id)
  {
    SomewhereUnderWay(s, i, id);
    if Returning(s, i, id) {
      ReturningAdvances(s, i, id);
    } else if AtPeer(s, i, id) {
      AtPeerAdvances(s, i, id);
    } else {
      CallingAdvances(s, i, id);
    }
  }

  /** From every state a finite number of steps answers the call. */
  lemma {:induction false} CallCanBeAnswered(s: State, i: Side, id: int) returns (r: seq<State>)
    requires Inv(s) && Awaiting(s, i, id)
    ensures Continues(s, r)
    ensures var e := r[|r| - 1].ends[i];
            id in e.calls && e.calls[id].phase.Answered? && e.calls[id].text == s.ends[i].calls[id].text
    decreases ToAnswer(s, i, id).stage, ToAnswer(s, i, id).lines, ToAnswer(s, i, id).blocked
  {
    var a := NextStep(s, i, id);
    CallAdvances(s, i, id);
    DoKeepsInv(s, a);
    var r' := [Do(s, a)];
    if !r'[0].ends[i].calls[id].phase.Answered? { r' := CallCanBeAnswered(r'[0], i, id); }
    Prepend(s, a, r');
    r := [s] + r';
  }

  lemma Append(s: State, r: seq<State>, a: Action)
    requires Continues(s, r) && Can(r[|r| - 1], a)
    ensures Continues(s, r + [Do(r[|r| - 1], a)])
  {
    var r' := r + [Do(r[|r| - 1], a)];
    forall i | 0 <= i < |r'| - 1 ensures Step(r'[i], r'[i + 1]) {
      if i < |r| - 1 { assert Step(r[i], r[i + 1]); }
    }
  }

  /** The last call to have returned at an endpoint had this text and was answered. */
  predicate ReturnedLast(e: Endpoint, text: string) {
    e.returned != [] && e.returned[|e.returned| - 1].text == text && e.returned[|e.returned| - 1].answered
  }

  lemma FinishReturns(s: State, i: Side, id: int)
    requires Shape(s) && Can(s, Finish(i, id))
    ensures Shape(Do(s, Finish(i, id))) && ReturnedLast(Do(s, Finish(i, id)).ends[i], s.ends[i].calls[id].text)
  {
  }

  lemma SendAwaits(s: State, i: Side, id: int)
    requires Shape(s) && Can(s, Send(i, id))
    ensures var s' := Do(s, Send(i, id));
            Shape(s') && Awaiting(s', i, id) && s'.ends[i].calls[id].text == s.ends[i].calls[id].text
  {
  }

  lemma AllocateBegins(s: State, i: Side, text: string)
    requires Shape(s) && Can(s, Allocate(i, text))
    ensures var s', id := Do(s, Allocate(i, text)), CallId(s.ends[i].nextId);
            Shape(s') && id in s'.ends[i].calls && s'.ends[i].calls[id].text == text && Can(s', Send(i, id))
  {
  }

  lemma AnsweredCanReturn(s: State, i: Side, id: int, text: string, r: seq<State>) returns (r': seq<State>)
    requires Continues(s, r)
    requires var e := r[|r| - 1].ends[i]; id in e.calls && e.calls[id].phase.Answered? && e.calls[id].text == text
    ensures Continues(s, r') && ReturnedLast(r'[|r'| - 1].ends[i], text)
  {
    var last := r[|r| - 1];
    FinishReturns(last, i, id);
    Append(s, r, Finish(i, id));
    r' := r + [Do(last, Finish(i, id))];
  }

  /** A call that has an id, and whose caller was not woken too early, can be sent, is answered and
      returns after a finite number of steps. */
  lemma CallCanReturn(s: State, i: Side, id: int) returns (r: seq<State>)
    requires Inv(s) && id in OpenCalls(s.ends[i])
    ensures Continues(s, r) && ReturnedLast(r[|r| - 1].ends[i], s.ends[i].calls[id].text)
  {
    var c := s.ends[i].calls[id];
    if c.phase.Answered? {
      r := AnsweredCanReturn(s, i, id, c.text, [s]);
    } else if c.phase.Allocated? {
      var s' := Do(s, Send(i, id));
      SendAwaits(s, i, id);
      DoKeepsInv(s, Send(i, id));
      var r' := CallCanBeAnswered(s', i, id);
      Prepend(s, Send(i, id), r');
      r := AnsweredCanReturn(s, i, id, c.text, [s] + r');
    } else {
      r := CallCanBeAnswered(s, i, id);
      r := AnsweredCanReturn(s, i, id, c.text, r);
    }
  }

  /** From every state with a running endpoint and a free id, a new call can be made and returns,
      answered, after a finite number of steps. */
  lemma NewCallCanReturn(s: State, i: Side, text: string) returns (r: seq<State>)
    requires Inv(s) && Can(s, Allocate(i, text))
    ensures Continues(s, r) && ReturnedLast(r[|r| - 1].ends[i], text)
  {
    AllocateBegins(s, i, text);
    DoKeepsInv(s, Allocate(i, text));
    var r' := CallCanReturn(Do(s, Allocate(i, text)), i, CallId(s.ends[i].nextId));
    Prepend(s, Allocate(i, text), r');
    r := [s] + r';
  }

  // ---- a call that does not get its reply -----------------------------------------------

  lemma Extend(r: seq<State>, a: Action) returns (r': seq<State>)
    requires Run(r) && Can(r[|r| - 1], a)
    ensures Run(r') && r'[|r'| - 1] == Do(r[|r| - 1], a)
  {
    r' := r + [Do(r[|r| - 1], a)];
    forall i | 0 <= i < |r'| - 1 ensures Step(r'[i], r'[i + 1]) {
      if i < |r| - 1 { assert Step(r[i], r[i + 1]); }
    }
  }

  /** Both endpoints of version 1, about to negotiate. */
  function Opened(): (s: State)
    ensures Shape(s)
  {
    State([Endpoint(1, false, -1, 0, map[], [], []), Endpoint(1, false, 1, 1, map[], [], [])], [[], []], false, false)
  }

  /** The client is running, and has nothing to do yet. */
  lemma ClientRuns() returns (r: seq<State>)
    ensures Run(r) && r[|r| - 1].ends[1] == Endpoint(1, true, 1, 1, map[], [], [])
  {
    assert Init(Opened());
    r := Extend([Opened()], Ask);
    VersionLineParses(1);
    assert r[|r| - 1].wire[1] == [Request(1)];
    r := Extend(r, Deliver(1));
  }

  function CallerIn(n: nat, text: string, phase: Phase): Endpoint {
    Endpoint(1, true, 1, n, map[1 := Call(text, phase, [])], [], [])
  }

  lemma CallerAllocates(s: State, text: string)
    requires Shape(s) && s.ends[1] == Endpoint(1, true, 1, 1, map[], [], []) && OneLine(text)
    ensures Can(s, Allocate(1, text)) && Do(s, Allocate(1, text)).ends[1] == CallerIn(2, text, Allocated)
  {
    assert map[][1 := Call(text, Allocated, [])] == map[1 := Call(text, Allocated, [])];
  }

  lemma CallerSends(s: State, text: string)
    requires Shape(s) && s.ends[1] == CallerIn(2, text, Allocated)
    ensures Can(s, Send(1, 1)) && Do(s, Send(1, 1)).ends[1] == CallerIn(2, text, Sent)
  {
    assert map[1 := Call(text, Allocated, [])][1 := Call(text, Sent, [])] == map[1 := Call(text, Sent, [])];
  }

  lemma CallerSleeps(s: State, text: string)
    requires Shape(s) && s.ends[1] == CallerIn(2, text, Sent)
    ensures Can(s, Sleep(1, 1)) && Do(s, Sleep(1, 1)).ends[1] == CallerIn(2, text, Waiting)
  {
    assert map[1 := Call(text, Sent, [])][1 := Call(text, Waiting, [])] == map[1 := Call(text, Waiting, [])];
  }

  lemma CallerWakes(s: State, text: string, junk: Option<string>)
    requires Shape(s) && s.ends[1] == CallerIn(2, text, Waiting)
    ensures Can(s, WakeUp(1, 1, junk))
    ensures Do(s, WakeUp(1, 1, junk)).ends[1].returned == [Return(text, Value(junk), [], false)]
  {
  }

  /** A run in which a caller, woken before its return has come, returns a text that nobody has
      produced: its call has not been dispatched at all. */
  lemma WokenTooEarlyRun(text: string, junk: Option<string>) returns (r: seq<State>)
    requires OneLine(text)
    ensures Run(r)
    ensures r[|r| - 1].ends[1].returned == [Return(text, Value(junk), [], false)]
  {
    r := ClientRuns();
    CallerAllocates(r[|r| - 1], text);
    r := Extend(r, Allocate(1, text));
    CallerSends(r[|r| - 1], text);
    r := Extend(r, Send(1, 1));
    CallerSleeps(r[|r| - 1], text);
    r := Extend(r, Sleep(1, 1));
    CallerWakes(r[|r| - 1], text, junk);
    r := Extend(r, WakeUp(1, 1, junk));
  }
}
