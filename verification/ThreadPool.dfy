/**
  The start and join handshakes of src/threadpool.c, for detached and joinable pools.

  A VoxiMutex section is one atomic step, up to a wait on a condition, which the recursive
  mutex (module RecursiveMutex) makes sound; everything outside a section is a step of its
  own. A sleeping thread is woken only by a signal: the code tests its conditions with `if`,
  not `while` (lines 353 and 389), so it relies on there being no spurious wake-ups. Workers
  and jobs are numbered; the value a job returns is chosen freely.
 */
module ThreadPool {
  import opened Wrappers
  import opened PoolLists
  import opened Sequences

  datatype JoinState =
    RunningUnjoined | RunningJoined | FinishedUnjoined | FinishedJoined | Complete

  /** Where a worker is in threadPoolThread_mainLoop. */
  datatype Pc =
    | AtStart            // 351-353: lock, is there a function to call?
    | StartWait          // 355: asleep on startCondition
    | StartWoken         // 355-360: signalled, not yet running again
    | CallFunc           // 366-371: about to call threadFunc
    | Running(job: nat)  // 371: inside it
    | Finishing          // 376-393
    | JoinWait           // 391: asleep on joinStateCondition
    | JoinWoken          // 391-397
    | Clear              // 401
    | Release            // 404-421

  /** `job` is the job that the pool has given the worker; the C code keeps no such field. */
  datatype Worker = Worker(pc: Pc, func: Option<nat>, result: int, join: JoinState,
                           job: Option<nat>)

  /** How far the thread that submitted a job has come. */
  datatype Client =
    | Handing            // in threadPool_runThread, between the two sections
    | Ticket             // threadPool_runThread has returned the worker
    | Waiting            // asleep in threadPoolThread_join
    | Woken              // signalled there
    | Joined(value: int) // threadPoolThread_join has returned this result
    | Rejected           // threadPoolThread_join has returned an error

  datatype Exec = Exec(worker: nat, result: int)

  /** An accepted job: the worker it was handed to and every execution of it so far. */
  datatype Job = Job(worker: nat, client: Client, execs: seq<Exec>)

  datatype State = State(detached: bool, lists: Lists<nat>, workers: seq<Worker>,
                         jobs: map<nat, Job>, failed: bool)

  datatype Action =
    | Accept(id: nat)          // threadPool_runThread, list section
    | Hand(id: nat)            // threadPool_runThread, start section
    | Work(w: nat, value: int) // one step of a worker; value is what its function returns
    | Join(id: nat)            // threadPoolThread_join, the one join of a run
    | JoinWake(id: nat)        // its second half, after the wait
    | JoinAgain(id: nat)       // a second join while the first is still waiting

  function NewWorker(): Worker { Worker(AtStart, None, 0, RunningUnjoined, None) }

  ghost predicate Init(s: State) {
    && s.lists.inUse == [] && s.jobs == map[] && !s.failed
    && s.lists.Apart()
    && (forall w: nat :: w in s.lists.avail <==> w < |s.workers|)
    && forall w :: 0 <= w < |s.workers| ==> s.workers[w] == NewWorker()
  }

  predicate Can(s: State, a: Action) {
    match a
    case Accept(id) => id !in s.jobs && (s.lists.avail != [] ==> s.lists.avail[0] < |s.workers|)
    case Hand(id) => id in s.jobs && s.jobs[id].client == Handing && s.jobs[id].worker < |s.workers|
    case Work(w, _) => w < |s.workers| && s.workers[w].pc !in {StartWait, JoinWait}
    case Join(id) => id in s.jobs && s.jobs[id].client == Ticket && s.jobs[id].worker < |s.workers|
    case JoinWake(id) => id in s.jobs && s.jobs[id].client == Woken && s.jobs[id].worker < |s.workers|
    case JoinAgain(id) =>
      id in s.jobs && s.jobs[id].client in {Waiting, Woken} && s.jobs[id].worker < |s.workers|
  }

  function SetWorker(s: State, w: nat, x: Worker): State
    requires w < |s.workers|
  {
    s.(workers := s.workers[w := x])
  }

  function SetClient(s: State, id: nat, c: Client): State
    requires id in s.jobs
  {
    s.(jobs := s.jobs[id := s.jobs[id].(client := c)])
  }

  function Assert(s: State, ok: bool): (s': State)
    ensures s'.failed <==> s.failed || !ok
  {
    s.(failed := s.failed || !ok)
  }

  /** Lines 253-280. */
  function DoAccept(s: State, id: nat): State
    requires Can(s, Accept(id))
  {
    var create := s.lists.avail == [];
    var w := if create then |s.workers| else s.lists.avail[0];
    var pool := if create then s.(workers := s.workers + [NewWorker()], lists := s.lists.Created(w))
                else s.(lists := s.lists.Taken());
    SetWorker(pool, w, pool.workers[w].(job := Some(id)))
      .(jobs := s.jobs[id := Job(w, Handing, [])])
  }

  /** Lines 283-290: set the function, signal the start condition, return the worker. */
  function DoHand(s: State, id: nat): State
    requires Can(s, Hand(id))
  {
    var w := s.jobs[id].worker;
    var x := s.workers[w].(func := Some(id));
    SetClient(SetWorker(s, w, if x.pc == StartWait then x.(pc := StartWoken) else x), id, Ticket)
  }

  /** Waking whoever sleeps in threadPoolThread_join for the worker's job. */
  function SignalJoiner(s: State, w: nat): State
    requires w < |s.workers|
  {
    match s.workers[w].job
    case None => s
    case Some(id) =>
      if id in s.jobs && s.jobs[id].client == Waiting then SetClient(s, id, Woken) else s
  }

  function Finished(j: JoinState): JoinState {
    if j == RunningJoined then FinishedJoined
    else if j == RunningUnjoined then FinishedUnjoined
    else j
  }

  /** Lines 351-421. */
  function DoWork(s: State, w: nat, value: int): State
    requires Can(s, Work(w, value))
  {
    var x := s.workers[w];
    match x.pc
    case AtStart => SetWorker(s, w, x.(pc := if x.func == None then StartWait else CallFunc))
    case StartWait => s
    case StartWoken => SetWorker(s, w, x.(pc := CallFunc))
    case CallFunc =>
      if x.func == None then Assert(s, false)
      else SetWorker(Assert(s, x.join in {RunningUnjoined, RunningJoined}),
                     w, x.(pc := Running(x.func.value)))
    case Running(id) =>
      var s1 := SetWorker(s, w, x.(result := value, pc := if s.detached then Clear else Finishing));
      if id in s.jobs
      then s1.(jobs := s.jobs[id := s.jobs[id].(execs := s.jobs[id].execs + [Exec(w, value)])])
      else s1
    case Finishing =>
      var j := Finished(x.join);
      SignalJoiner(SetWorker(s, w, x.(join := j, pc := if j == Complete then JoinWoken else JoinWait)), w)
    case JoinWait => s
    case JoinWoken => SetWorker(s, w, x.(join := RunningUnjoined, pc := Clear))
    case Clear => SetWorker(s, w, x.(func := None, pc := Release))
    case Release =>
      SetWorker(Assert(s, s.lists.inUse != []).(lists := s.lists.Returned(w)),
                w, x.(pc := AtStart, job := None))
  }

  /** Lines 330-333: take the result, mark the run complete, signal the worker. */
  function Collect(s: State, id: nat): State
    requires id in s.jobs && s.jobs[id].worker < |s.workers|
  {
    var w := s.jobs[id].worker;
    var x := s.workers[w].(join := Complete);
    SetClient(SetWorker(s, w, if x.pc == JoinWait then x.(pc := JoinWoken) else x),
              id, Joined(x.result))
  }

  /** Lines 302-323. */
  function DoJoin(s: State, id: nat): State
    requires Can(s, Join(id))
  {
    var w := s.jobs[id].worker;
    var x := s.workers[w];
    if s.detached then s
    else if x.join in {RunningJoined, FinishedJoined} then SetClient(s, id, Rejected)
    else if x.join == RunningUnjoined
    then SetClient(SetWorker(s, w, x.(join := RunningJoined)), id, Waiting)
    else Collect(s, id)
  }

  function Do(s: State, a: Action): State
    requires Can(s, a)
  {
    match a
    case Accept(id) => DoAccept(s, id)
    case Hand(id) => DoHand(s, id)
    case Work(w, value) => DoWork(s, w, value)
    case Join(id) => DoJoin(s, id)
    case JoinWake(id) =>
      // 325: the assertion after the wait
      Collect(Assert(s, s.workers[s.jobs[id].worker].join == FinishedJoined), id)
    case JoinAgain(id) =>
      // 312-318: refused without touching anything
      Assert(s, s.workers[s.jobs[id].worker].join in {RunningJoined, FinishedJoined})
  }

  ghost predicate Next(s: State, s': State) {
    exists a :: Can(s, a) && s' == Do(s, a)
  }

  ghost predicate Run(r: seq<State>) {
    && |r| > 0 && Init(r[0])
    && forall i :: 0 <= i < |r| - 1 ==> Next(r[i], r[i + 1])
  }

  // ---- the inductive invariant -----------------------------------------------------

  /** The job has not been executed; its client may already have asked for the result. */
  predicate Unfinished(detached: bool, x: Worker, j: Job) {
    || (x.join == RunningUnjoined && j.client == Ticket)
    || (!detached && x.join == RunningJoined && j.client == Waiting)
  }

  predicate Settled(detached: bool, result: int, j: Job) {
    j.client == if detached then Ticket else Joined(result)
  }

  /** A worker that has been given job id. */
  predicate Assigned(detached: bool, x: Worker, w: nat, id: nat, j: Job) {
    && j.worker == w
    && (x.pc in {AtStart, StartWait} && x.func == None ==>
          j.client == Handing && x.join == RunningUnjoined && j.execs == [])
    && (x.pc == StartWait ==> x.func == None)
    && ((x.pc.AtStart? && x.func != None) || x.pc in {StartWoken, CallFunc} || x.pc.Running? ==>
          x.func == Some(id) && j.execs == [] && Unfinished(detached, x, j))
    && (x.pc.Running? ==> x.pc.job == id)
    && (x.pc in {Finishing, JoinWait, JoinWoken, Clear, Release} ==>
          j.execs == [Exec(w, x.result)] && x.func == if x.pc == Release then None else Some(id))
    && (x.pc in {Finishing, JoinWait, JoinWoken} ==> !detached)
    && (x.pc == Finishing ==> Unfinished(detached, x, j))
    && (x.pc == JoinWait ==> || (x.join == FinishedUnjoined && j.client == Ticket)
                             || (x.join == FinishedJoined && j.client == Woken))
    && (x.pc == JoinWoken ==> x.join == Complete && j.client == Joined(x.result))
    && (x.pc in {Clear, Release} ==>
          x.join == RunningUnjoined && Settled(detached, x.result, j))
  }

  predicate WorkerOk(s: State, w: nat)
    requires w < |s.workers|
  {
    var x := s.workers[w];
    match x.job
    case None => x.pc in {AtStart, StartWait} && x.func == None && x.join == RunningUnjoined
    case Some(id) => id in s.jobs && Assigned(s.detached, x, w, id, s.jobs[id])
  }

  /** Executed once, by its own worker, and the result handed over. */
  predicate Past(detached: bool, j: Job) {
    && |j.execs| == 1 && j.execs[0].worker == j.worker
    && Settled(detached, j.execs[0].result, j)
  }

  predicate JobOk(s: State, id: nat)
    requires id in s.jobs
  {
    && s.jobs[id].worker < |s.workers|
    && (s.workers[s.jobs[id].worker].job == Some(id) || Past(s.detached, s.jobs[id]))
  }

  ghost predicate ListsOk(s: State) {
    && s.lists.Apart()
    && (forall w: nat :: w in s.lists.avail <==> w < |s.workers| && s.workers[w].job == None)
    && (forall w: nat :: w in s.lists.inUse <==> w < |s.workers| && s.workers[w].job != None)
  }

  ghost predicate Inv(s: State) {
    && !s.failed
    && ListsOk(s)
    && (forall w :: 0 <= w < |s.workers| ==> WorkerOk(s, w))
    && (forall id :: id in s.jobs ==> JobOk(s, id))
  }

  // ---- preservation ------------------------------------------------------------------

  /** s' differs from s in worker w and job id only, and both are in order. */
  ghost predicate Touches(s: State, s': State, w: nat, id: nat) {
    && s'.detached == s.detached
    && w < |s'.workers| && |s'.workers| >= |s.workers|
    && (forall v :: 0 <= v < |s'.workers| && v != w ==> v < |s.workers| && s'.workers[v] == s.workers[v])
    && (w < |s.workers| ==> s.workers[w].job in {None, Some(id)})
    && s'.jobs.Keys == s.jobs.Keys + {id}
    && (forall k :: k in s.jobs && k != id ==> s'.jobs[k] == s.jobs[k])
    && s'.jobs[id].worker == w
    && (id in s.jobs ==> s.jobs[id].worker == w)
    && WorkerOk(s', w) && JobOk(s', id)
  }

  lemma TouchKeepsInv(s: State, s': State, w: nat, id: nat)
    requires Inv(s) && Touches(s, s', w, id) && ListsOk(s') && !s'.failed
    ensures Inv(s')
  {
    forall v: nat | v < |s'.workers| ensures WorkerOk(s', v) {
      if v != w {
        var x := s'.workers[v];
        assert v < |s.workers| && s.workers[v] == x;
        assert WorkerOk(s, v);
      }
    }
    forall k | k in s'.jobs ensures JobOk(s', k) {
      if k != id { assert JobOk(s, k); }
    }
  }

  /** Steps that leave the lists alone and keep the worker's job. */
  lemma SameLists(s: State, s': State, w: nat)
    requires ListsOk(s) && s'.lists == s.lists && w < |s.workers|
    requires |s'.workers| == |s.workers| && s'.workers == s.workers[w := s'.workers[w]]
    requires s'.workers[w].job == s.workers[w].job
    ensures ListsOk(s')
  {}

  lemma AcceptKeepsInv(s: State, id: nat)
    requires Inv(s) && Can(s, Accept(id))
    ensures Inv(DoAccept(s, id))
  {
    var s' := DoAccept(s, id);
    var w := s'.jobs[id].worker;
    if s.lists.avail == [] {
      assert w !in s.lists.avail && w !in s.lists.inUse;
      CreatedKeepsApart(s.lists, w);
    } else {
      assert w in s.lists.avail;
      assert WorkerOk(s, w);
      TakenKeepsApart(s.lists);
    }
    assert ListsOk(s');
    TouchKeepsInv(s, s', w, id);
  }

  lemma HandKeepsInv(s: State, id: nat)
    requires Inv(s) && Can(s, Hand(id))
    ensures Inv(DoHand(s, id))
  {
    var w := s.jobs[id].worker;
    assert JobOk(s, id) && WorkerOk(s, w);
    SameLists(s, DoHand(s, id), w);
    TouchKeepsInv(s, DoHand(s, id), w, id);
  }

  /** What the invariant says about one job and its worker. */
  predicate Here(s: State, id: nat) {
    && id in s.jobs && JobOk(s, id) && WorkerOk(s, s.jobs[id].worker)
  }

  lemma JoinTouches(s: State, id: nat)
    requires Here(s, id) && Can(s, Join(id)) && !s.detached
    ensures Touches(s, DoJoin(s, id), s.jobs[id].worker, id) && DoJoin(s, id).failed == s.failed
  {}

  lemma JoinKeepsInv(s: State, id: nat)
    requires Inv(s) && Can(s, Join(id))
    ensures Inv(DoJoin(s, id))
  {
    var w := s.jobs[id].worker;
    if !s.detached {
      assert Here(s, id);
      JoinTouches(s, id);
      SameLists(s, DoJoin(s, id), w);
      TouchKeepsInv(s, DoJoin(s, id), w, id);
    }
  }

  lemma JoinWakeTouches(s: State, id: nat)
    requires Here(s, id) && Can(s, JoinWake(id))
    ensures Touches(s, Do(s, JoinWake(id)), s.jobs[id].worker, id)
    ensures Do(s, JoinWake(id)).failed == s.failed
  {}

  lemma JoinWakeKeepsInv(s: State, id: nat)
    requires Inv(s) && Can(s, JoinWake(id))
    ensures Inv(Do(s, JoinWake(id)))
  {
    var w := s.jobs[id].worker;
    assert Here(s, id);
    JoinWakeTouches(s, id);
    SameLists(s, Do(s, JoinWake(id)), w);
    TouchKeepsInv(s, Do(s, JoinWake(id)), w, id);
  }

  lemma ReleaseKeepsInv(s: State, w: nat, value: int)
    requires Inv(s) && Can(s, Work(w, value)) && s.workers[w].pc == Release
    ensures Inv(DoWork(s, w, value))
  {
    assert WorkerOk(s, w);
    var id := s.workers[w].job.value;
    assert w in s.lists.inUse;
    ReturnedKeepsApart(s.lists, w);
    TouchKeepsInv(s, DoWork(s, w, value), w, id);
  }

  lemma IdleKeepsInv(s: State, w: nat, value: int)
    requires Inv(s) && Can(s, Work(w, value)) && s.workers[w].job == None
    ensures Inv(DoWork(s, w, value))
  {
    var s' := DoWork(s, w, value);
    assert WorkerOk(s, w);
    SameLists(s, s', w);
    forall v | 0 <= v < |s'.workers| ensures WorkerOk(s', v) {
      assert WorkerOk(s, v);
    }
    forall k | k in s'.jobs ensures JobOk(s', k) {
      assert JobOk(s, k);
    }
  }

  lemma WorkTouches(s: State, w: nat, value: int, id: nat)
    requires Here(s, id) && s.jobs[id].worker == w && Can(s, Work(w, value))
    requires s.workers[w].pc != Release && s.workers[w].job == Some(id)
    ensures Touches(s, DoWork(s, w, value), w, id) && DoWork(s, w, value).failed == s.failed
  {
    if ToExecution(s.workers[w].pc) { StartTouches(s, w, value, id); } else { EndTouches(s, w, value, id); }
  }

  predicate ToExecution(pc: Pc) { pc in {AtStart, StartWait, StartWoken, CallFunc} || pc.Running? }

  lemma StartTouches(s: State, w: nat, value: int, id: nat)
    requires Here(s, id) && s.jobs[id].worker == w && Can(s, Work(w, value))
    requires ToExecution(s.workers[w].pc) && s.workers[w].job == Some(id)
    ensures Touches(s, DoWork(s, w, value), w, id) && DoWork(s, w, value).failed == s.failed
  {}

  lemma EndTouches(s: State, w: nat, value: int, id: nat)
    requires Here(s, id) && s.jobs[id].worker == w && Can(s, Work(w, value))
    requires !ToExecution(s.workers[w].pc) && s.workers[w].pc != Release && s.workers[w].job == Some(id)
    ensures Touches(s, DoWork(s, w, value), w, id) && DoWork(s, w, value).failed == s.failed
  {}

  lemma WorkKeepsInv(s: State, w: nat, value: int)
    requires Inv(s) && Can(s, Work(w, value))
    ensures Inv(DoWork(s, w, value))
  {
    assert WorkerOk(s, w);
    if s.workers[w].pc == Release {
      ReleaseKeepsInv(s, w, value);
    } else if s.workers[w].job == None {
      IdleKeepsInv(s, w, value);
    } else {
      var id := s.workers[w].job.value;
      assert Here(s, id);
      WorkTouches(s, w, value, id);
      SameLists(s, DoWork(s, w, value), w);
      TouchKeepsInv(s, DoWork(s, w, value), w, id);
    }
  }

  lemma DoKeepsInv(s: State, a: Action)
    requires Inv(s) && Can(s, a)
    ensures Inv(Do(s, a))
  {
    match a
    case Accept(id) => AcceptKeepsInv(s, id);
    case Hand(id) => HandKeepsInv(s, id);
    case Work(w, value) => WorkKeepsInv(s, w, value);
    case Join(id) => JoinKeepsInv(s, id);
    case JoinWake(id) => JoinWakeKeepsInv(s, id);
    case JoinAgain(id) => assert Here(s, id);
  }

  lemma {:induction false} RunKeepsInv(r: seq<State>, i: nat)
    requires Run(r) && i < |r|
    ensures Inv(r[i])
    decreases i
  {
    if i > 0 {
      RunKeepsInv(r, i - 1);
      assert Next(r[i - 1], r[i - 1 + 1]);
      var a :| Can(r[i - 1], a) && r[i] == Do(r[i - 1], a);
      DoKeepsInv(r[i - 1], a);
    }
  }

  // ---- what the invariant gives ------------------------------------------------------

  /** Every accepted job is executed at most once, by the worker it was handed to, and a
      worker that could take a new job has finished every earlier one (and, in a joinable
      pool, has had its result collected). No assertion fails, so in particular the state
      found after the wait in a join is FINISHED_JOINED. Every worker is in exactly one of
      the two lists: available without a job, in use with one. */
  lemma SafeInEveryRun(r: seq<State>, i: nat)
    requires Run(r) && i < |r|
    ensures !r[i].failed
    ensures forall id :: id in r[i].jobs ==>
              var j := r[i].jobs[id];
              && |j.execs| <= 1
              && (forall k :: 0 <= k < |j.execs| ==> j.execs[k].worker == j.worker)
              && (j.worker in r[i].lists.avail ==> Past(r[i].detached, j))
    ensures r[i].lists.Apart()
    ensures forall w: nat :: w < |r[i].workers| ==>
              (w in r[i].lists.avail || w in r[i].lists.inUse)
  {
    RunKeepsInv(r, i);
    forall id | id in r[i].jobs
      ensures var j := r[i].jobs[id];
              && |j.execs| <= 1
              && (forall k :: 0 <= k < |j.execs| ==> j.execs[k].worker == j.worker)
              && (j.worker in r[i].lists.avail ==> Past(r[i].detached, j))
    {
      assert JobOk(r[i], id);
      assert WorkerOk(r[i], r[i].jobs[id].worker);
    }
  }

  /** What is asserted in a step (366-367, 407, 325), and that a second join is refused. */
  predicate Asserted(s: State, a: Action)
    requires Can(s, a)
  {
    match a
    case Work(w, _) =>
      && (s.workers[w].pc == CallFunc ==>
            s.workers[w].func != None && s.workers[w].join in {RunningUnjoined, RunningJoined})
      && (s.workers[w].pc == Release ==> s.lists.inUse != [])
    case JoinWake(id) => s.workers[s.jobs[id].worker].join == FinishedJoined
    case JoinAgain(id) => s.workers[s.jobs[id].worker].join in {RunningJoined, FinishedJoined}
    case _ => true
  }

  /** A step fails exactly if an assertion does not hold. */
  lemma StepFailsIff(s: State, a: Action)
    requires Can(s, a)
    ensures Do(s, a).failed <==> s.failed || !Asserted(s, a)
  {
    match a
    case Work(w, value) => WorkFailsIff(s, w, value);
    case _ =>
  }

  lemma WorkFailsIff(s: State, w: nat, value: int)
    requires Can(s, Work(w, value))
    ensures DoWork(s, w, value).failed <==> s.failed || !Asserted(s, Work(w, value))
  {}

  /** A join that has returned gave the result of that very job, whether it came before or
      after the job ended; and it is never refused. */
  lemma JoinReturnsOwnResult(r: seq<State>, i: nat, id: nat)
    requires Run(r) && i < |r| && id in r[i].jobs
    ensures r[i].jobs[id].client != Rejected
    ensures r[i].jobs[id].client.Joined? ==>
              r[i].jobs[id].execs == [Exec(r[i].jobs[id].worker, r[i].jobs[id].client.value)]
  {
    RunKeepsInv(r, i);
    assert JobOk(r[i], id);
    assert WorkerOk(r[i], r[i].jobs[id].worker);
  }

  /** What happened stays: no later step drops an accepted job, moves it to another worker
      or forgets an execution. */
  lemma HistoryGrows(s: State, a: Action, id: nat)
    requires Can(s, a) && id in s.jobs
    ensures id in Do(s, a).jobs && Do(s, a).jobs[id].worker == s.jobs[id].worker
    ensures s.jobs[id].execs <= Do(s, a).jobs[id].execs
  {
    match a
    case Accept(_) =>
    case Hand(_) =>
    case Work(w, value) => WorkHistory(s, w, value, id);
    case Join(_) =>
    case JoinWake(_) =>
    case JoinAgain(_) =>
  }

  lemma WorkHistory(s: State, w: nat, value: int, id: nat)
    requires Can(s, Work(w, value)) && id in s.jobs
    ensures var s' := DoWork(s, w, value);
            id in s'.jobs && s'.jobs[id].worker == s.jobs[id].worker
            && s.jobs[id].execs <= s'.jobs[id].execs
  {}

  /** The steps that bring job id to its execution: how many are still to come. */
  function ToRun(s: State, id: nat): nat
    requires id in s.jobs && s.jobs[id].worker < |s.workers|
  {
    if s.jobs[id].execs != [] then 0
    else match s.workers[s.jobs[id].worker].pc
      case AtStart => 4
      case StartWait => 4
      case StartWoken => 3
      case CallFunc => 2
      case _ => 1
  }

  ghost predicate NotSetBack(s: State, s': State, id: nat)
    requires id in s.jobs && s.jobs[id].worker < |s.workers|
  {
    id in s'.jobs && s'.jobs[id].worker < |s'.workers| && ToRun(s', id) <= ToRun(s, id)
  }

  lemma OtherWorkNeverSetsBack(s: State, w: nat, value: int, id: nat)
    requires Can(s, Work(w, value)) && id in s.jobs && s.jobs[id].worker < |s.workers| && s.jobs[id].worker != w
    ensures NotSetBack(s, DoWork(s, w, value), id)
  {
    WorkLeavesOthers(s, w, value, id);
  }

  lemma WorkLeavesOthers(s: State, w: nat, value: int, id: nat)
    requires Can(s, Work(w, value)) && id in s.jobs && s.jobs[id].worker < |s.workers| && s.jobs[id].worker != w
    ensures var s' := DoWork(s, w, value);
            && id in s'.jobs && s'.jobs[id].worker == s.jobs[id].worker && |s'.workers| == |s.workers|
            && s.jobs[id].execs <= s'.jobs[id].execs
            && s'.workers[s.jobs[id].worker] == s.workers[s.jobs[id].worker]
  {}

  lemma OwnWorkNeverSetsBack(s: State, value: int, id: nat)
    requires id in s.jobs && JobOk(s, id) && WorkerOk(s, s.jobs[id].worker) && Can(s, Work(s.jobs[id].worker, value))
    ensures NotSetBack(s, DoWork(s, s.jobs[id].worker, value), id)
  {}

  lemma HandNeverSetsBack(s: State, k: nat, id: nat)
    requires Inv(s) && Can(s, Hand(k)) && id in s.jobs && s.jobs[id].worker < |s.workers|
    ensures NotSetBack(s, DoHand(s, k), id)
  {
    assert JobOk(s, k) && WorkerOk(s, s.jobs[k].worker);
  }

  lemma JoinNeverSetsBack(s: State, a: Action, id: nat)
    requires Inv(s) && Can(s, a) && (a.Join? || a.JoinWake? || a.JoinAgain?)
    requires id in s.jobs && s.jobs[id].worker < |s.workers|
    ensures NotSetBack(s, Do(s, a), id)
  {
    assert JobOk(s, a.id) && WorkerOk(s, s.jobs[a.id].worker);
  }

  /** No step of any thread takes a job further from its execution. */
  lemma JobNeverSetBack(s: State, a: Action, id: nat)
    requires Inv(s) && Can(s, a) && id in s.jobs
    ensures s.jobs[id].worker < |s.workers| && NotSetBack(s, Do(s, a), id)
  {
    assert JobOk(s, id);
    match a
    case Accept(k) => AcceptNeverSetsBack(s, k, id);
    case Hand(k) => HandNeverSetsBack(s, k, id);
    case Work(w, value) =>
      if w == s.jobs[id].worker {
        assert WorkerOk(s, w);
        OwnWorkNeverSetsBack(s, value, id);
      } else {
        OtherWorkNeverSetsBack(s, w, value, id);
      }
    case _ => JoinNeverSetsBack(s, a, id);
  }

  lemma AcceptNeverSetsBack(s: State, k: nat, id: nat)
    requires Inv(s) && Can(s, Accept(k)) && id in s.jobs
    ensures s.jobs[id].worker < |s.workers| && NotSetBack(s, DoAccept(s, k), id)
  {
    assert JobOk(s, id);
  }

  /** No start is lost: an accepted job that has not been executed is either still being
      handed over, or its worker is awake and each of its steps brings the job nearer to
      being executed. */
  lemma JobGetsRun(s: State, id: nat, value: int)
    requires Inv(s) && id in s.jobs && s.jobs[id].execs == []
    ensures s.jobs[id].worker < |s.workers|
    ensures s.jobs[id].client == Handing ==> Can(s, Hand(id))
    ensures s.jobs[id].client != Handing ==>
              var a := Work(s.jobs[id].worker, value);
              && Can(s, a)
              && id in Do(s, a).jobs && Do(s, a).jobs[id].worker == s.jobs[id].worker < |Do(s, a).workers|
              && ToRun(Do(s, a), id) < ToRun(s, id)
  {
    assert JobOk(s, id);
    assert WorkerOk(s, s.jobs[id].worker);
  }

  /** What may happen from a state on. */
  ghost predicate Continues(s: State, r: seq<State>) {
    |r| > 0 && r[0] == s && forall i :: 0 <= i < |r| - 1 ==> Next(r[i], r[i + 1])
  }

  lemma Prepend(s: State, a: Action, r: seq<State>)
    requires Can(s, a) && Continues(Do(s, a), r)
    ensures Continues(s, [s] + r)
  {
    var r' := [s] + r;
    forall i | 0 <= i < |r'| - 1 ensures Next(r'[i], r'[i + 1]) {
      if i > 0 { assert Next(r[i - 1], r[i - 1 + 1]); }
    }
  }

  lemma Handed(s: State, id: nat)
    requires Inv(s) && Can(s, Hand(id))
    ensures id in DoHand(s, id).jobs && DoHand(s, id).jobs[id].client != Handing
  {}

  /** From every state a finite number of steps, of the client that hands the job over and of the
      worker, executes the job. */
  lemma {:induction false} JobCanBeRun(s: State, id: nat, value: int) returns (r: seq<State>)
    requires Inv(s) && id in s.jobs
    ensures Continues(s, r)
    ensures id in r[|r| - 1].jobs && r[|r| - 1].jobs[id].execs != []
    ensures r[|r| - 1].jobs[id].worker == s.jobs[id].worker
    decreases s.jobs[id].execs == [] && s.jobs[id].client == Handing,
              if Here(s, id) then ToRun(s, id) else 0
  {
    if s.jobs[id].execs != [] {
      r := [s];
    } else {
      JobGetsRun(s, id, value);
      var a := if s.jobs[id].client == Handing then Hand(id) else Work(s.jobs[id].worker, value);
      if a.Hand? { Handed(s, id); }
      DoKeepsInv(s, a);
      HistoryGrows(s, a, id);
      var r' := JobCanBeRun(Do(s, a), id, value);
      Prepend(s, a, r');
      r := [s] + r';
    }
  }

  /** No join is lost: a sleeping client still has the job's end before it, and a worker
      asleep after its job has a client that will come, or has been woken, to collect. */
  lemma NoLostJoin(s: State, id: nat)
    requires Inv(s) && id in s.jobs
    ensures s.jobs[id].worker < |s.workers|
    ensures s.jobs[id].client == Waiting ==>
              && Can(s, Work(s.jobs[id].worker, 0))
              && s.workers[s.jobs[id].worker].job == Some(id)
              && (s.jobs[id].execs != [] ==> Do(s, Work(s.jobs[id].worker, 0)).jobs[id].client == Woken)
    ensures s.jobs[id].client == Woken ==> Can(s, JoinWake(id))
    ensures s.workers[s.jobs[id].worker].pc == JoinWait && s.workers[s.jobs[id].worker].job == Some(id) ==>
              Can(s, Join(id)) || Can(s, JoinWake(id))
  {
    assert JobOk(s, id);
    assert WorkerOk(s, s.jobs[id].worker);
  }

  // ---- workers come back ---------------------------------------------------------------

  /** A job is always accepted. An available worker is reused, the first one; only if there is
      none the pool grows, by one worker. */
  lemma AcceptReuses(s: State, id: nat)
    requires Inv(s) && id !in s.jobs
    ensures Can(s, Accept(id))
    ensures var s' := Do(s, Accept(id));
            && id in s'.jobs && s'.jobs[id].worker in s'.lists.inUse
            && (s.lists.avail != [] ==>
                  && s'.jobs[id].worker == s.lists.avail[0] && |s'.workers| == |s.workers|
                  && s'.lists.avail == s.lists.avail[1..])
            && (s.lists.avail == [] ==> s'.jobs[id].worker == |s.workers| && |s'.workers| == |s.workers| + 1)
  {
    if s.lists.avail != [] { assert s.lists.avail[0] in s.lists.avail; }
  }

  /** How many steps a worker in use may be away from being available again. */
  function ToAvailable(pc: Pc): nat {
    match pc
    case AtStart => 10
    case StartWait => 9
    case StartWoken => 8
    case CallFunc => 7
    case Running(_) => 6
    case Finishing => 5
    case JoinWait => 4
    case JoinWoken => 3
    case Clear => 2
    case Release => 1
  }

  ghost predicate ComesNearer(s: State, s': State, w: nat, id: nat)
    requires w < |s.workers| && id in s.jobs
  {
    && w < |s'.workers| && id in s'.jobs && s'.jobs[id].worker == s.jobs[id].worker
    && (|| w in s'.lists.avail
        || (w in s'.lists.inUse && s'.workers[w].job == Some(id)
            && ToAvailable(s'.workers[w].pc) < ToAvailable(s.workers[w].pc)))
  }

  /** The step that brings a worker with a job nearer to being available: its own, or if it is
      asleep, that of the client that hands the job over or joins. */
  function StepBack(s: State, w: nat, id: nat, value: int): Action
    requires w < |s.workers| && id in s.jobs
  {
    if s.workers[w].pc == StartWait then Hand(id)
    else if s.workers[w].pc == JoinWait then (if s.jobs[id].client == Woken then JoinWake(id) else Join(id))
    else Work(w, value)
  }

  lemma InUse(s: State, w: nat) returns (id: nat)
    requires Inv(s) && w in s.lists.inUse
    ensures w < |s.workers| && s.workers[w].job == Some(id) && id in s.jobs && s.jobs[id].worker == w && Here(s, id)
  {
    id := s.workers[w].job.value;
    assert WorkerOk(s, w) && JobOk(s, id);
  }

  lemma ReleaseMakesAvailable(s: State, w: nat, value: int)
    requires Inv(s) && w in s.lists.inUse && w < |s.workers| && s.workers[w].pc == Release
    ensures w in DoWork(s, w, value).lists.avail
  {
    ReturnedKeepsApart(s.lists, w);
  }

  lemma WorkComesNearer(s: State, w: nat, id: nat, value: int)
    requires Here(s, id) && s.jobs[id].worker == w && s.workers[w].job == Some(id) && w in s.lists.inUse
    requires Can(s, Work(w, value)) && s.workers[w].pc != Release
    ensures ComesNearer(s, DoWork(s, w, value), w, id)
  {}

  lemma ClientComesNearer(s: State, w: nat, id: nat, value: int)
    requires Here(s, id) && s.jobs[id].worker == w && s.workers[w].job == Some(id) && w in s.lists.inUse
    requires s.workers[w].pc in {StartWait, JoinWait}
    ensures var a := StepBack(s, w, id, value); Can(s, a) && ComesNearer(s, Do(s, a), w, id)
  {}

  /** A worker in use always has a step before it, its own or that of its client, that brings it
      nearer to being available; once its job is executed, and collected in a joinable pool, that
      is its own step. */
  lemma WorkerComesNearer(s: State, w: nat, value: int)
    requires Inv(s) && w in s.lists.inUse
    ensures w < |s.workers| && s.workers[w].job.Some? && s.workers[w].job.value in s.jobs
    ensures var id := s.workers[w].job.value;
            var a := StepBack(s, w, id, value);
            && Can(s, a) && ComesNearer(s, Do(s, a), w, id)
            && (s.jobs[id].execs != [] && (s.detached || s.jobs[id].client.Joined?) ==> a == Work(w, value))
  {
    var id := InUse(s, w);
    if s.workers[w].pc in {StartWait, JoinWait} {
      ClientComesNearer(s, w, id, value);
    } else if s.workers[w].pc == Release {
      ReleaseMakesAvailable(s, w, value);
    } else {
      WorkComesNearer(s, w, id, value);
    }
  }

  /** From every state a finite number of steps makes a worker in use available again. */
  lemma {:induction false} WorkerCanComeBack(s: State, w: nat, value: int) returns (r: seq<State>)
    requires Inv(s) && w < |s.workers|
    ensures Continues(s, r) && w in r[|r| - 1].lists.avail
    decreases ToAvailable(s.workers[w].pc)
  {
    if w in s.lists.avail {
      r := [s];
    } else {
      WorkerComesNearer(s, w, value);
      var a := StepBack(s, w, s.workers[w].job.value, value);
      DoKeepsInv(s, a);
      var r' := [Do(s, a)];
      if w !in r'[0].lists.avail { r' := WorkerCanComeBack(r'[0], w, value); }
      Prepend(s, a, r');
      r := [s] + r';
    }
  }

  lemma {:induction false} ContinuesKeeps(s: State, r: seq<State>, i: nat, id: nat)
    requires Inv(s) && Continues(s, r) && i < |r| && id in s.jobs
    ensures Inv(r[i]) && r[i].detached == s.detached && id in r[i].jobs && r[i].jobs[id].worker == s.jobs[id].worker
  {
    if i > 0 {
      ContinuesKeeps(s, r, i - 1, id);
      assert Next(r[i - 1], r[i - 1 + 1]);
      var a :| Can(r[i - 1], a) && r[i] == Do(r[i - 1], a);
      DoKeepsInv(r[i - 1], a);
      HistoryGrows(r[i - 1], a, id);
      SamePool(r[i - 1], a);
    }
  }

  lemma SamePool(s: State, a: Action)
    requires Can(s, a)
    ensures Do(s, a).detached == s.detached
  {}

  /** From every state a finite number of steps gets a job over and done with: executed once, and in
      a joinable pool the join has returned its result. */
  lemma JobCanBeSettled(s: State, id: nat, value: int) returns (r: seq<State>)
    requires Inv(s) && id in s.jobs
    ensures Continues(s, r) && id in r[|r| - 1].jobs
    ensures var j := r[|r| - 1].jobs[id];
            && |j.execs| == 1 && j.execs[0].worker == s.jobs[id].worker
            && j.client == if s.detached then Ticket else Joined(j.execs[0].result)
  {
    assert JobOk(s, id);
    var w := s.jobs[id].worker;
    r := WorkerCanComeBack(s, w, value);
    ContinuesKeeps(s, r, |r| - 1, id);
    assert JobOk(r[|r| - 1], id);
  }

  /** Every worker is in one of the lists. */
  lemma ListsAddUp(s: State)
    requires ListsOk(s)
    ensures |s.lists.avail| + |s.lists.inUse| == |s.workers|
  {
    var all, numbers := s.lists.avail + s.lists.inUse, Range(0, |s.workers|);
    forall i, j | 0 <= i < j < |all| ensures all[i] != all[j] {
      assert all[i] in (if i < |s.lists.avail| then s.lists.avail else s.lists.inUse);
      assert all[j] in (if j < |s.lists.avail| then s.lists.avail else s.lists.inUse);
    }
    DistinctSize<int>(all);
    DistinctSize(numbers);
    assert Members<int>(all) == Members(numbers) by {
      forall w: int | w in Members(numbers) ensures w in Members<int>(all) {
        assert w in s.lists.avail || w in s.lists.inUse;
      }
      forall w: int | w in Members<int>(all) ensures w in Members(numbers) {
        assert numbers[w] == w;
      }
    }
  }

  /** There are never more workers than there were at first, or than have been in use at one time. */
  lemma {:induction false} PoolSize(r: seq<State>, i: nat) returns (k: nat)
    requires Run(r) && i < |r|
    ensures k <= i && (|r[i].workers| == |r[0].workers| || |r[i].workers| == |r[k].lists.inUse|)
    decreases i
  {
    k := 0;
    if i > 0 {
      k := PoolSize(r, i - 1);
      RunKeepsInv(r, i - 1);
      assert Next(r[i - 1], r[i - 1 + 1]);
      var a :| Can(r[i - 1], a) && r[i] == Do(r[i - 1], a);
      RunKeepsInv(r, i);
      if a.Accept? && r[i - 1].lists.avail == [] {
        k := i;
        ListsAddUp(r[i]);
      } else {
        SameSize(r[i - 1], a);
      }
    }
  }

  lemma SameSize(s: State, a: Action)
    requires Can(s, a) && !(a.Accept? && s.lists.avail == [])
    ensures |Do(s, a).workers| == |s.workers|
  {}
}
