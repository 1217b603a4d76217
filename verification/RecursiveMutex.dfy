/**
  The recursive mutex of src/threading.c: a binary semaphore guards the bookkeeping
  fields (count, thread, lastLockFrom) around an inner pthread mutex.

  The model is a transition system over any number of threads. Every access to the
  semaphore, to the inner mutex or to a group of bookkeeping fields is one step of one
  thread, and the steps of different threads interleave freely. An assertion of the C
  code that does not hold sets `failed`; so does unlocking an inner mutex that the
  caller does not hold.
 */
module RecursiveMutex {
  import opened Wrappers

  type Where = Option<string>

  /** Program counter of one thread; the comments give the lines about to be executed. */
  datatype Pc = Idle | Locking(l: LockPc) | Unlocking(u: UnlockPc) | Waiting(w: WaitPc)

  /** threading_mutex_lock_debug */
  datatype LockPc =
    | LockEnter          // 290: sem_wait
    | LockCheck          // 293-295: semaphore value asserted to be 0
    | LockTest           // 304: is this thread the owner?
    | LockRecurse        // 311: count++
    | LockBackOff        // 317: sem_post
    | LockInner          // 328: pthread_mutex_lock
    | LockReenter        // 345: sem_wait
    | LockRecheck        // 348-350: semaphore value asserted to be 0
    | LockClaim          // 363-365: count asserted to be 0, then claimed
    | LockStamp          // 368-369: lastLockFrom
    | LockLeave          // 373: sem_post, return oldWhere

  /** threading_mutex_unlock_debug */
  datatype UnlockPc =
    | UnlockEnter        // 410: sem_wait
    | UnlockCheck        // 413-415: semaphore value asserted to be 0
    | UnlockOwner        // 417-418: owner and count asserted
    | UnlockCount        // 420-421: lastLockFrom, count--
    | UnlockInner        // 428-444: pthread_mutex_unlock if count is 0
    | UnlockLeave        // 448: sem_post

  /** threading_cond_wait and threading_cond_absolute_timedwait */
  datatype WaitPc =
    | WaitEnter          // 468, 623: sem_wait
    | WaitCheck          // 475-481, 626-628: semaphore value asserted to be 0
    | WaitOwner          // 488, 630-631: count (and owner) asserted
    | WaitSave           // 496-500, 639-643: fields saved and cleared
    | WaitPost           // 507, 650: sem_post
    | WaitSleep          // 514, 654: release the inner mutex and sleep, atomically
    | WaitAsleep         // 514, 654: wake up (at any time) and take the inner mutex
    | WaitReenter        // 536, 673: sem_wait
    | WaitRecheck        // 543-549, 677-679: semaphore value asserted to be 0
    | WaitRestore        // 555-558, 685-688: fields restored
    | WaitLeave          // 565, 695: sem_post

  /** One lock not yet undone: the description passed to the lock and the one it returned. */
  datatype Hold = Hold(place: Where, prior: Where)

  /** `arg` is the string argument of the running call; `timed` tells which wait is running;
      `got`, `savedCount` and `savedLast` are the locals oldWhere, oldCount, oldLastLockFrom.
      The calling thread's own record: `held`, its nested locks, and `told`, the description it
      passed to the last lock or unlock that has returned. */
  datatype Thread = Thread(pc: Pc, arg: Where, timed: bool, got: Where,
                           savedCount: int, savedLast: Where, held: seq<Hold>, told: Where)

  datatype State = State(sem: nat, inner: Option<nat>, count: int, owner: nat,
                         last: Where, threads: seq<Thread>, failed: bool)

  datatype Op = Lock(place: Where) | Unlock(prior: Where) | Wait(isTimed: bool)

  // ---- transitions -------------------------------------------------------------

  ghost predicate Init(s: State) {
    && s.sem == 1 && s.inner == None && s.count == 0 && s.last == None && !s.failed
    && forall t :: 0 <= t < |s.threads| ==> s.threads[t].pc == Idle && s.threads[t].held == []
  }

  /** What callers may do: lock at any time; unlock and wait only while holding. An unlock
      passes what the matching lock returned (unlock_debug) or NULL (plain unlock). */
  predicate MayBegin(th: Thread, op: Op) {
    && th.pc.Idle?
    && match op
       case Lock(_) => true
       case Unlock(prior) => |th.held| > 0 && prior in {None, th.held[|th.held| - 1].prior}
       case Wait(_) => |th.held| > 0
  }

  function Begin(th: Thread, op: Op): Thread {
    match op
    case Lock(place) => th.(pc := Locking(LockEnter), arg := place)
    case Unlock(prior) => th.(pc := Unlocking(UnlockEnter), arg := prior)
    case Wait(isTimed) => th.(pc := Waiting(WaitEnter), timed := isTimed)
  }

  predicate WantsSem(pc: Pc) {
    pc in {Locking(LockEnter), Locking(LockReenter), Unlocking(UnlockEnter),
           Waiting(WaitEnter), Waiting(WaitReenter)}
  }

  predicate WantsInner(pc: Pc) { pc in {Locking(LockInner), Waiting(WaitAsleep)} }

  /** A thread inside a call can take its next step. */
  predicate CanStep(s: State, t: nat) {
    && t < |s.threads|
    && !s.threads[t].pc.Idle?
    && (WantsSem(s.threads[t].pc) ==> s.sem > 0)
    && (WantsInner(s.threads[t].pc) ==> s.inner == None)
  }

  function Put(s: State, t: nat, th: Thread): State
    requires t < |s.threads|
  {
    s.(threads := s.threads[t := th])
  }

  function Goto(s: State, t: nat, pc: Pc): State
    requires t < |s.threads|
  {
    Put(s, t, s.threads[t].(pc := pc))
  }

  function Assert(s: State, ok: bool): (s': State)
    ensures s'.failed <==> s.failed || !ok
  {
    s.(failed := s.failed || !ok)
  }

  function StepLock(s: State, t: nat): (s': State)
    requires CanStep(s, t) && s.threads[t].pc.Locking?
    ensures |s'.threads| == |s.threads|
  {
    var th := s.threads[t];
    match th.pc.l
    case LockEnter => Goto(s.(sem := s.sem - 1), t, Locking(LockCheck))
    case LockCheck => Goto(Assert(s, s.sem == 0), t, Locking(LockTest))
    case LockTest => Goto(s, t, if s.count > 0 && s.owner == t then Locking(LockRecurse) else Locking(LockBackOff))
    case LockRecurse => Goto(s.(count := s.count + 1), t, Locking(LockStamp))
    case LockBackOff => Goto(s.(sem := s.sem + 1), t, Locking(LockInner))
    case LockInner => Goto(s.(inner := Some(t)), t, Locking(LockReenter))
    case LockReenter => Goto(s.(sem := s.sem - 1), t, Locking(LockRecheck))
    case LockRecheck => Goto(Assert(s, s.sem == 0), t, Locking(LockClaim))
    case LockClaim => Goto(Assert(s, s.count == 0).(count := 1, owner := t), t, Locking(LockStamp))
    case LockStamp => Put(s.(last := th.arg), t, th.(pc := Locking(LockLeave), got := s.last))
    case LockLeave =>
      Put(s.(sem := s.sem + 1), t, th.(pc := Idle, held := th.held + [Hold(th.arg, th.got)], told := th.arg))
  }

  function StepUnlock(s: State, t: nat): (s': State)
    requires CanStep(s, t) && s.threads[t].pc.Unlocking?
    ensures |s'.threads| == |s.threads|
  {
    var th := s.threads[t];
    match th.pc.u
    case UnlockEnter => Goto(s.(sem := s.sem - 1), t, Unlocking(UnlockCheck))
    case UnlockCheck => Goto(Assert(s, s.sem == 0), t, Unlocking(UnlockOwner))
    case UnlockOwner => Goto(Assert(s, s.owner == t && s.count > 0), t, Unlocking(UnlockCount))
    case UnlockCount => Goto(s.(last := th.arg, count := s.count - 1), t, Unlocking(UnlockInner))
    case UnlockInner =>
      if s.count == 0
      then Goto(Assert(s, s.inner == Some(t) && th.arg == None).(inner := None), t, Unlocking(UnlockLeave))
      else Goto(s, t, Unlocking(UnlockLeave))
    case UnlockLeave =>
      Put(s.(sem := s.sem + 1), t,
          th.(pc := Idle, held := if th.held == [] then [] else th.held[..|th.held| - 1], told := th.arg))
  }

  function StepWait(s: State, t: nat): (s': State)
    requires CanStep(s, t) && s.threads[t].pc.Waiting?
    ensures |s'.threads| == |s.threads|
  {
    var th := s.threads[t];
    match th.pc.w
    case WaitEnter => Goto(s.(sem := s.sem - 1), t, Waiting(WaitCheck))
    case WaitCheck => Goto(Assert(s, s.sem == 0), t, Waiting(WaitOwner))
    case WaitOwner => Goto(Assert(s, s.count > 0 && (th.timed ==> s.owner == t)), t, Waiting(WaitSave))
    case WaitSave =>
      Put(s.(count := 0, last := None), t,
          th.(pc := Waiting(WaitPost), savedCount := s.count, savedLast := s.last))
    case WaitPost => Goto(s.(sem := s.sem + 1), t, Waiting(WaitSleep))
    case WaitSleep => Goto(Assert(s, s.inner == Some(t)).(inner := None), t, Waiting(WaitAsleep))
    case WaitAsleep => Goto(s.(inner := Some(t)), t, Waiting(WaitReenter))
    case WaitReenter => Goto(s.(sem := s.sem - 1), t, Waiting(WaitRecheck))
    case WaitRecheck => Goto(Assert(s, s.sem == 0), t, Waiting(WaitRestore))
    case WaitRestore =>
      Goto(Assert(s, s.count == 0).(count := th.savedCount, last := th.savedLast, owner := t),
           t, Waiting(WaitLeave))
    case WaitLeave => Goto(s.(sem := s.sem + 1), t, Idle)
  }

  function Step(s: State, t: nat): (s': State)
    requires CanStep(s, t)
    ensures |s'.threads| == |s.threads|
  {
    match s.threads[t].pc
    case Locking(_) => StepLock(s, t)
    case Unlocking(_) => StepUnlock(s, t)
    case Waiting(_) => StepWait(s, t)
  }

  /** One step of the whole system: some thread starts a call or advances inside one. */
  ghost predicate Next(s: State, s': State) {
    exists t: nat :: NextBy(s, s', t)
  }

  ghost predicate NextBy(s: State, s': State, t: nat) {
    || (exists op :: t < |s.threads| && MayBegin(s.threads[t], op)
                     && s' == Put(s, t, Begin(s.threads[t], op)))
    || (CanStep(s, t) && s' == Step(s, t))
  }

  ghost predicate Run(r: seq<State>) {
    && |r| > 0 && Init(r[0])
    && forall i :: 0 <= i < |r| - 1 ==> Next(r[i], r[i + 1])
  }

  // ---- the inductive invariant ---------------------------------------------------

  predicate HasSem(pc: Pc) {
    match pc
    case Idle => false
    case Locking(l) => l !in {LockEnter, LockInner, LockReenter}
    case Unlocking(u) => u != UnlockEnter
    case Waiting(w) => w !in {WaitEnter, WaitSleep, WaitAsleep, WaitReenter}
  }

  /** The thread has the inner mutex, and with it owns the lock: in its own code with open locks,
      and also inside a nested lock, an unlock or the waking part of a wait. */
  predicate HasInner(th: Thread) {
    match th.pc
    case Idle => th.held != []
    case Locking(l) =>
      th.held != [] || l in {LockReenter, LockRecheck, LockClaim, LockStamp, LockLeave}
    case Unlocking(u) => |th.held| > if u == UnlockLeave then 1 else 0
    case Waiting(w) => th.held != [] && w != WaitAsleep
  }

  predicate Released(w: WaitPc) {
    w in {WaitPost, WaitSleep, WaitAsleep, WaitReenter, WaitRecheck, WaitRestore}
  }

  /** What `count` must be while the thread has the inner mutex. */
  function CountOf(th: Thread): int {
    match th.pc
    case Idle => |th.held|
    case Locking(l) => if l in {LockStamp, LockLeave} then |th.held| + 1 else |th.held|
    case Unlocking(u) => if u in {UnlockInner, UnlockLeave} then |th.held| - 1 else |th.held|
    case Waiting(w) => if Released(w) then 0 else |th.held|
  }

  /** A description is either absent or the one given to the innermost open lock. */
  predicate DescribesTop(held: seq<Hold>, w: Where) {
    w == None || (|held| > 0 && w == held[|held| - 1].place)
  }

  /** The description in force between the calls of a thread. */
  function InForce(th: Thread): Where { if th.held == [] then None else th.told }

  /** What `lastLockFrom` is while the thread has the inner mutex. */
  function LastOf(th: Thread): Where {
    if th.pc == Locking(LockLeave) || th.pc in {Unlocking(UnlockInner), Unlocking(UnlockLeave)} then th.arg
    else if th.pc.Waiting? && Released(th.pc.w) then None
    else InForce(th)
  }

  predicate Saved(th: Thread) {
    && (th.pc == Locking(LockLeave) ==> th.got == InForce(th))
    && (th.pc.Waiting? && Released(th.pc.w) ==> th.savedCount == |th.held| && th.savedLast == InForce(th))
  }

  /** What a lock returned is absent or describes the lock it was nested in. */
  ghost predicate HoldsInv(held: seq<Hold>) {
    forall i :: 0 <= i < |held| ==> DescribesTop(held[..i], held[i].prior)
  }

  /** Facts about one thread alone. */
  ghost predicate ThreadInv(th: Thread) {
    && (th.pc == Locking(LockRecurse) ==> |th.held| > 0)
    && (th.pc.Locking? && th.pc.l in {LockBackOff, LockInner, LockReenter, LockRecheck, LockClaim}
        ==> th.held == [])
    && (th.pc.Unlocking? ==> |th.held| > 0 && th.arg in {None, th.held[|th.held| - 1].prior})
    && (th.pc.Waiting? ==> |th.held| > 0)
    && Saved(th)
    && HoldsInv(th.held) && DescribesTop(th.held, InForce(th))
  }

  ghost predicate SemInv(s: State) {
    && s.sem <= 1
    && (forall t :: 0 <= t < |s.threads| && HasSem(s.threads[t].pc) ==> s.sem == 0)
    && (forall t, u | 0 <= t < |s.threads| && 0 <= u < |s.threads| ::
          HasSem(s.threads[t].pc) && HasSem(s.threads[u].pc) ==> t == u)
    && (s.sem == 0 ==> exists t :: 0 <= t < |s.threads| && HasSem(s.threads[t].pc))
  }

  /** The bookkeeping fields agree with the thread that has the inner mutex. */
  predicate Booked(s: State, th: Thread, t: nat) {
    && s.count == CountOf(th)
    && s.last == LastOf(th)
    && (s.count > 0 ==> s.owner == t)
  }

  ghost predicate InnerInv(s: State) {
    && (forall t :: 0 <= t < |s.threads| ==> (HasInner(s.threads[t]) <==> s.inner == Some(t)))
    && (s.inner == None ==> s.count == 0 && s.last == None)
    && (s.inner.Some? ==> s.inner.value < |s.threads|
                          && Booked(s, s.threads[s.inner.value], s.inner.value))
  }

  ghost predicate Inv(s: State) {
    && !s.failed
    && SemInv(s)
    && InnerInv(s)
    && forall t :: 0 <= t < |s.threads| ==> ThreadInv(s.threads[t])
  }

  // ---- preservation ----------------------------------------------------------------

  /** The part of the invariant that speaks of thread t. */
  ghost predicate Here(s: State, t: nat) {
    && t < |s.threads|
    && ThreadInv(s.threads[t])
    && (HasInner(s.threads[t]) <==> s.inner == Some(t))
    && (s.inner == Some(t) ==> Booked(s, s.threads[t], t))
    && (s.inner == None ==> s.count == 0 && s.last == None)
    && (s.count > 0 ==> s.inner == Some(s.owner))
    && s.sem <= 1
    && (HasSem(s.threads[t].pc) ==> s.sem == 0)
  }

  /** The three ways in which a step may treat the semaphore: keep, take or release it. */
  ghost predicate SemMove(s: State, s': State, t: nat)
    requires t < |s.threads| && t < |s'.threads|
  {
    var had, has := HasSem(s.threads[t].pc), HasSem(s'.threads[t].pc);
    || (had == has && s'.sem == s.sem)
    || (!had && has && s.sem == 1 && s'.sem == 0)
    || (had && !has && s.sem == 0 && s'.sem == 1)
  }

  /** Likewise for the inner mutex and the fields booked on its holder. */
  ghost predicate InnerMove(s: State, s': State, t: nat)
    requires t < |s.threads| && t < |s'.threads|
  {
    var th' := s'.threads[t];
    if s'.inner == Some(t) then
      s.inner in {None, Some(t)} && HasInner(th') && Booked(s', th', t)
    else if s.inner == Some(t) then
      s'.inner == None && !HasInner(th') && s'.count == 0 && s'.last == None
    else
      && s'.inner == s.inner && !HasInner(th')
      && s'.count == s.count && s'.last == s.last && s'.owner == s.owner
  }

  ghost predicate Move(s: State, s': State, t: nat) {
    && t < |s.threads|
    && |s'.threads| == |s.threads|
    && s'.threads == s.threads[t := s'.threads[t]]
    && SemMove(s, s', t)
    && InnerMove(s, s', t)
    && ThreadInv(s'.threads[t])
    && s'.failed == s.failed
  }

  lemma SemMoveKeeps(s: State, s': State, t: nat)
    requires SemInv(s) && Move(s, s', t)
    ensures SemInv(s')
  {
    if s'.sem == 0 {
      if s.sem == 0 {
        var u :| 0 <= u < |s.threads| && HasSem(s.threads[u].pc);
        assert HasSem(s'.threads[u].pc);
      } else {
        assert HasSem(s'.threads[t].pc);
      }
    }
  }

  lemma MoveKeepsInv(s: State, s': State, t: nat)
    requires Inv(s) && Move(s, s', t)
    ensures Inv(s')
  {
    SemMoveKeeps(s, s', t);
    assert InnerInv(s');
  }

  lemma BeginMoves(s: State, t: nat, op: Op)
    requires Here(s, t) && MayBegin(s.threads[t], op)
    ensures Move(s, Put(s, t, Begin(s.threads[t], op)), t)
  {}

  lemma PushKeepsHolds(held: seq<Hold>, h: Hold)
    requires HoldsInv(held) && DescribesTop(held, h.prior)
    ensures HoldsInv(held + [h])
  {
    var held' := held + [h];
    forall i | 0 <= i < |held'| ensures DescribesTop(held'[..i], held'[i].prior) {
      assert held'[..i] == held[..i];
    }
  }

  lemma PopKeepsHolds(held: seq<Hold>)
    requires HoldsInv(held) && |held| > 0
    ensures HoldsInv(held[..|held| - 1])
    ensures DescribesTop(held[..|held| - 1], held[|held| - 1].prior)
  {
    var held' := held[..|held| - 1];
    forall i | 0 <= i < |held'| ensures DescribesTop(held'[..i], held'[i].prior) {
      assert held'[..i] == held[..i];
    }
  }

  predicate Outer(l: LockPc) { l in {LockEnter, LockCheck, LockTest, LockRecurse, LockBackOff} }

  lemma LockMovesOuter(s: State, t: nat)
    requires Here(s, t) && CanStep(s, t) && s.threads[t].pc.Locking? && Outer(s.threads[t].pc.l)
    ensures Move(s, StepLock(s, t), t)
  {}

  lemma LockMovesClaim(s: State, t: nat)
    requires Here(s, t) && CanStep(s, t) && s.threads[t].pc.Locking?
    requires !Outer(s.threads[t].pc.l) && s.threads[t].pc.l !in {LockStamp, LockLeave}
    ensures Move(s, StepLock(s, t), t)
  {}

  lemma LockMovesStamp(s: State, t: nat)
    requires Here(s, t) && CanStep(s, t) && s.threads[t].pc == Locking(LockStamp)
    ensures Move(s, StepLock(s, t), t)
  {}

  lemma LockMovesLeave(s: State, t: nat)
    requires Here(s, t) && CanStep(s, t) && s.threads[t].pc == Locking(LockLeave)
    ensures Move(s, StepLock(s, t), t)
  {
    PushKeepsHolds(s.threads[t].held, Hold(s.threads[t].arg, s.threads[t].got));
  }

  lemma LockMovesInner(s: State, t: nat)
    requires Here(s, t) && CanStep(s, t) && s.threads[t].pc.Locking? && !Outer(s.threads[t].pc.l)
    ensures Move(s, StepLock(s, t), t)
  {
    if s.threads[t].pc.l.LockStamp? {
      LockMovesStamp(s, t);
    } else if s.threads[t].pc.l.LockLeave? {
      LockMovesLeave(s, t);
    } else {
      LockMovesClaim(s, t);
    }
  }

  predicate Counted(u: UnlockPc) { u in {UnlockInner, UnlockLeave} }

  lemma UnlockMovesCount(s: State, t: nat)
    requires Here(s, t) && CanStep(s, t)
    requires s.threads[t].pc.Unlocking? && !Counted(s.threads[t].pc.u)
    ensures Move(s, StepUnlock(s, t), t)
  {}

  lemma UnlockMovesLeave(s: State, t: nat)
    requires Here(s, t) && CanStep(s, t)
    requires s.threads[t].pc.Unlocking? && Counted(s.threads[t].pc.u)
    ensures Move(s, StepUnlock(s, t), t)
  {
    PopKeepsHolds(s.threads[t].held);
  }

  predicate Leaving(w: WaitPc) { w in {WaitEnter, WaitCheck, WaitOwner, WaitSave, WaitPost} }

  lemma WaitMovesOut(s: State, t: nat)
    requires Here(s, t) && CanStep(s, t) && s.threads[t].pc.Waiting? && Leaving(s.threads[t].pc.w)
    ensures Move(s, StepWait(s, t), t)
  {}

  predicate Asleep(w: WaitPc) { w in {WaitSleep, WaitAsleep} }

  lemma WaitMovesAsleep(s: State, t: nat)
    requires Here(s, t) && CanStep(s, t) && s.threads[t].pc.Waiting? && Asleep(s.threads[t].pc.w)
    ensures Move(s, StepWait(s, t), t)
  {}

  lemma WaitMovesAwake(s: State, t: nat)
    requires Here(s, t) && CanStep(s, t) && s.threads[t].pc.Waiting?
    requires !Leaving(s.threads[t].pc.w) && !Asleep(s.threads[t].pc.w)
    ensures Move(s, StepWait(s, t), t)
  {}

  lemma WaitMovesBack(s: State, t: nat)
    requires Here(s, t) && CanStep(s, t) && s.threads[t].pc.Waiting? && !Leaving(s.threads[t].pc.w)
    ensures Move(s, StepWait(s, t), t)
  {
    if Asleep(s.threads[t].pc.w) { WaitMovesAsleep(s, t); } else { WaitMovesAwake(s, t); }
  }

  lemma StepMoves(s: State, t: nat)
    requires Here(s, t) && CanStep(s, t)
    ensures Move(s, Step(s, t), t)
  {
    match s.threads[t].pc
    case Locking(l) =>
      if Outer(l) { LockMovesOuter(s, t); } else { LockMovesInner(s, t); }
    case Unlocking(u) =>
      if Counted(u) { UnlockMovesLeave(s, t); } else { UnlockMovesCount(s, t); }
    case Waiting(w) =>
      if Leaving(w) { WaitMovesOut(s, t); } else { WaitMovesBack(s, t); }
  }

  lemma NextKeepsInv(s: State, s': State)
    requires Inv(s) && Next(s, s')
    ensures Inv(s')
  {
    var t: nat :| NextBy(s, s', t);
    assert Here(s, t);
    if op :| t < |s.threads| && MayBegin(s.threads[t], op)
             && s' == Put(s, t, Begin(s.threads[t], op)) {
      BeginMoves(s, t, op);
    } else {
      StepMoves(s, t);
    }
    MoveKeepsInv(s, s', t);
  }

  /** Every state of every run, under every interleaving, satisfies the invariant. */
  lemma {:induction false} RunKeepsInv(r: seq<State>, i: nat)
    requires Run(r) && i < |r|
    ensures Inv(r[i])
    decreases i
  {
    if i > 0 {
      RunKeepsInv(r, i - 1);
      assert Next(r[i - 1], r[i - 1 + 1]);
      NextKeepsInv(r[i - 1], r[i]);
    }
  }

  // ---- what the invariant gives ------------------------------------------------------

  /** The only threads with open locks that do not own it: asleep in a wait, or about to leave
      the unlock that undid the last of them. */
  lemma OpenLocksOwn(th: Thread)
    requires th.held != []
    ensures HasInner(th) <==> th.pc != Waiting(WaitAsleep) && !(th.pc == Unlocking(UnlockLeave) && |th.held| == 1)
  {}

  /** No assertion fails in any run; at most one thread owns the lock, whatever calls it and the
      others are in the middle of; while it is owned `count` follows the owner's nesting depth
      and `thread` names the owner; and when the owner is in its own code `count` is that depth
      and `lastLockFrom` is what it passed to its last lock or unlock, also after a wait. */
  lemma SafeInEveryRun(r: seq<State>, i: nat)
    requires Run(r) && i < |r|
    ensures !r[i].failed
    ensures forall t, u | 0 <= t < |r[i].threads| && 0 <= u < |r[i].threads| ::
              HasInner(r[i].threads[t]) && HasInner(r[i].threads[u]) ==> t == u
    ensures forall t :: 0 <= t < |r[i].threads| && HasInner(r[i].threads[t]) ==>
              && r[i].count == CountOf(r[i].threads[t])
              && (r[i].count > 0 ==> r[i].owner == t)
              && (r[i].threads[t].pc.Idle? ==>
                    && r[i].count == |r[i].threads[t].held| > 0
                    && r[i].last == r[i].threads[t].told
                    && DescribesTop(r[i].threads[t].held, r[i].last))
  {
    RunKeepsInv(r, i);
  }

  // ---- descriptions ------------------------------------------------------------------

  /** Each unlock passes back what its lock returned. */
  predicate Pairs(th: Thread) {
    th.pc.Unlocking? && th.held != [] ==> th.arg == th.held[|th.held| - 1].prior
  }

  ghost predicate Paired(s: State) { forall t :: 0 <= t < |s.threads| ==> Pairs(s.threads[t]) }

  ghost predicate PairedRun(r: seq<State>) { Run(r) && forall i :: 0 <= i < |r| ==> Paired(r[i]) }

  /** The description of the lock in which the k-th open lock is nested. */
  function Around(held: seq<Hold>, k: nat): Where
    requires k < |held|
  {
    if k == 0 then None else held[k - 1].place
  }

  predicate Chained(held: seq<Hold>) { forall k :: 0 <= k < |held| ==> held[k].prior == Around(held, k) }

  predicate Told(th: Thread) { Chained(th.held) && (th.held != [] ==> th.told == th.held[|th.held| - 1].place) }

  lemma PushTold(held: seq<Hold>, told: Where, h: Hold)
    requires Chained(held) && (held != [] ==> told == held[|held| - 1].place)
    requires h.prior == if held == [] then None else told
    ensures Chained(held + [h])
  {
    var held' := held + [h];
    forall k | 0 <= k < |held'| ensures held'[k].prior == Around(held', k) {
      if k < |held| { assert held[k].prior == Around(held, k); }
    }
  }

  /** Only the ends of locks and unlocks change the record of a thread. */
  predicate SameRecord(th: Thread, th': Thread) { th'.held == th.held && th'.told == th.told }

  /** The step stays in the call, or is its last. */
  predicate SameCall(th: Thread, th': Thread) {
    && SameRecord(th, th') && th'.arg == th.arg
    && ((th.pc.Locking? && th'.pc.Locking?) || (th.pc.Unlocking? && th'.pc.Unlocking?)
        || (th.pc.Waiting? && (th'.pc.Waiting? || th'.pc.Idle?)))
  }

  lemma OuterSameCall(s: State, t: nat)
    requires CanStep(s, t) && s.threads[t].pc.Locking? && Outer(s.threads[t].pc.l)
    ensures SameCall(s.threads[t], StepLock(s, t).threads[t])
  {}

  lemma InnerSameCall(s: State, t: nat)
    requires CanStep(s, t) && s.threads[t].pc.Locking? && !Outer(s.threads[t].pc.l) && !s.threads[t].pc.l.LockLeave?
    ensures SameCall(s.threads[t], StepLock(s, t).threads[t])
  {}

  lemma UnlockSameCall(s: State, t: nat)
    requires CanStep(s, t) && s.threads[t].pc.Unlocking? && !s.threads[t].pc.u.UnlockLeave?
    ensures SameCall(s.threads[t], StepUnlock(s, t).threads[t])
  {}

  lemma LeavingSameCall(s: State, t: nat)
    requires CanStep(s, t) && s.threads[t].pc.Waiting? && Leaving(s.threads[t].pc.w)
    ensures SameCall(s.threads[t], StepWait(s, t).threads[t])
  {}

  lemma AsleepSameCall(s: State, t: nat)
    requires CanStep(s, t) && s.threads[t].pc.Waiting? && Asleep(s.threads[t].pc.w)
    ensures SameCall(s.threads[t], StepWait(s, t).threads[t])
  {}

  lemma AwakeSameCall(s: State, t: nat)
    requires CanStep(s, t) && s.threads[t].pc.Waiting? && !Leaving(s.threads[t].pc.w) && !Asleep(s.threads[t].pc.w)
    ensures SameCall(s.threads[t], StepWait(s, t).threads[t])
  {}

  lemma WaitSameCall(s: State, t: nat)
    requires CanStep(s, t) && s.threads[t].pc.Waiting?
    ensures SameCall(s.threads[t], StepWait(s, t).threads[t])
  {
    var w := s.threads[t].pc.w;
    if Leaving(w) { LeavingSameCall(s, t); } else if Asleep(w) { AsleepSameCall(s, t); } else { AwakeSameCall(s, t); }
  }

  lemma LockedTold(th: Thread, th': Thread)
    requires Told(th) && th.got == InForce(th)
    requires th'.held == th.held + [Hold(th.arg, th.got)] && th'.told == th.arg
    ensures Told(th')
  {
    PushTold(th.held, th.told, Hold(th.arg, th.got));
  }

  lemma UnlockedTold(th: Thread, th': Thread)
    requires Told(th) && th.held != [] && th.arg == th.held[|th.held| - 1].prior
    requires th'.held == th.held[..|th.held| - 1] && th'.told == th.arg
    ensures Told(th')
  {
    var n := |th.held| - 1;
    assert th.held[n].prior == Around(th.held, n);
    forall k | 0 <= k < n ensures th'.held[k].prior == Around(th'.held, k) {
      assert th.held[k].prior == Around(th.held, k);
    }
  }

  lemma StepTold(s: State, t: nat)
    requires Here(s, t) && CanStep(s, t) && Pairs(s.threads[t]) && Told(s.threads[t])
    ensures Told(Step(s, t).threads[t])
  {
    var th := s.threads[t];
    match th.pc
    case Locking(l) =>
      if l.LockLeave? { LockedTold(th, Step(s, t).threads[t]); }
      else if Outer(l) { OuterSameCall(s, t); }
      else { InnerSameCall(s, t); }
    case Unlocking(u) =>
      if u.UnlockLeave? { UnlockedTold(th, Step(s, t).threads[t]); } else { UnlockSameCall(s, t); }
    case Waiting(_) => WaitSameCall(s, t);
  }

  ghost predicate AllTold(s: State) { forall t :: 0 <= t < |s.threads| ==> Told(s.threads[t]) }

  lemma OneTold(s: State, s': State, t: nat)
    requires t < |s.threads| && |s'.threads| == |s.threads| && s'.threads == s.threads[t := s'.threads[t]]
    requires Told(s'.threads[t]) && AllTold(s)
    ensures AllTold(s')
  {}

  lemma BeginsTold(s: State, t: nat, op: Op)
    requires t < |s.threads| && AllTold(s)
    ensures AllTold(Put(s, t, Begin(s.threads[t], op)))
  {
    var s' := Put(s, t, Begin(s.threads[t], op));
    assert SameRecord(s.threads[t], s'.threads[t]);
    OneTold(s, s', t);
  }

  lemma StepsTold(s: State, t: nat)
    requires Here(s, t) && CanStep(s, t) && Pairs(s.threads[t]) && AllTold(s)
    ensures AllTold(Step(s, t))
  {
    StepTold(s, t);
    StepMoves(s, t);
    OneTold(s, Step(s, t), t);
  }

  lemma NextTold(s: State, s': State)
    requires Inv(s) && Next(s, s') && Paired(s) && AllTold(s)
    ensures AllTold(s')
  {
    var t: nat :| NextBy(s, s', t);
    assert Here(s, t);
    if op :| t < |s.threads| && MayBegin(s.threads[t], op)
             && s' == Put(s, t, Begin(s.threads[t], op)) {
      BeginsTold(s, t, op);
    } else {
      StepsTold(s, t);
    }
  }

  lemma {:induction false} RunTold(r: seq<State>, i: nat)
    requires PairedRun(r) && i < |r|
    ensures AllTold(r[i])
    decreases i
  {
    if i > 0 {
      RunTold(r, i - 1);
      RunKeepsInv(r, i - 1);
      RunStep(r, i - 1);
      NextTold(r[i - 1], r[i]);
    } else {
      InitTold(r[0]);
    }
  }

  lemma RunStep(r: seq<State>, i: nat)
    requires PairedRun(r) && i < |r| - 1
    ensures Next(r[i], r[i + 1]) && Paired(r[i])
  {}

  lemma InitTold(s: State)
    requires Init(s)
    ensures AllTold(s)
  {}

  /** If each unlock passes back what its lock returned, then in every run each open lock has
      returned the description of the one it is nested in, the outermost none; and whenever the
      owner is in its own code `lastLockFrom` describes its innermost open lock, also after
      waits. */
  lemma DescriptionsNest(r: seq<State>, i: nat, t: nat)
    requires PairedRun(r) && i < |r| && t < |r[i].threads|
    ensures var held := r[i].threads[t].held;
            && (forall k :: 0 <= k < |held| ==> held[k].prior == Around(held, k))
            && (r[i].threads[t].pc.Idle? && held != [] ==> r[i].last == held[|held| - 1].place)
  {
    RunKeepsInv(r, i);
    RunTold(r, i);
    assert Told(r[i].threads[t]);
  }

  /** What is asserted at the point where a thread stands, and that the inner mutex is released
      only by its holder. */
  predicate Asserted(s: State, t: nat)
    requires t < |s.threads|
  {
    var th := s.threads[t];
    match th.pc
    case Idle => true
    case Locking(l) => (l in {LockCheck, LockRecheck} ==> s.sem == 0) && (l == LockClaim ==> s.count == 0)
    case Unlocking(u) =>
      && (u == UnlockCheck ==> s.sem == 0)
      && (u == UnlockOwner ==> s.owner == t && s.count > 0)
      && (u == UnlockInner && s.count == 0 ==> s.inner == Some(t) && th.arg == None)
    case Waiting(w) =>
      && (w in {WaitCheck, WaitRecheck} ==> s.sem == 0)
      && (w == WaitOwner ==> s.count > 0 && (th.timed ==> s.owner == t))
      && (w == WaitSleep ==> s.inner == Some(t))
      && (w == WaitRestore ==> s.count == 0)
  }

  /** A step fails exactly if an assertion does not hold. */
  lemma StepFailsIff(s: State, t: nat)
    requires CanStep(s, t)
    ensures Step(s, t).failed <==> s.failed || !Asserted(s, t)
  {
    match s.threads[t].pc
    case Locking(l) => if Outer(l) { OuterFailsIff(s, t); } else { InnerFailsIff(s, t); }
    case Unlocking(_) =>
    case Waiting(w) => if Leaving(w) { LeavingFailsIff(s, t); } else { BackFailsIff(s, t); }
  }

  lemma OuterFailsIff(s: State, t: nat)
    requires CanStep(s, t) && s.threads[t].pc.Locking? && Outer(s.threads[t].pc.l)
    ensures StepLock(s, t).failed <==> s.failed || !Asserted(s, t)
  {}

  lemma InnerFailsIff(s: State, t: nat)
    requires CanStep(s, t) && s.threads[t].pc.Locking? && !Outer(s.threads[t].pc.l)
    ensures StepLock(s, t).failed <==> s.failed || !Asserted(s, t)
  {}

  lemma LeavingFailsIff(s: State, t: nat)
    requires CanStep(s, t) && s.threads[t].pc.Waiting? && Leaving(s.threads[t].pc.w)
    ensures StepWait(s, t).failed <==> s.failed || !Asserted(s, t)
  {}

  lemma BackFailsIff(s: State, t: nat)
    requires CanStep(s, t) && s.threads[t].pc.Waiting? && !Leaving(s.threads[t].pc.w)
    ensures StepWait(s, t).failed <==> s.failed || !Asserted(s, t)
  {}

  /** A recursive lock as its users see it. */
  datatype Abstract = Free | Owned(thread: nat, depth: nat)

  function Abs(s: State): Abstract {
    if s.count <= 0 then Free else Owned(s.owner, s.count)
  }

  /** What thread t, with `th.held` open locks, may do to the abstract lock in each call:
      a lock takes a free one or nests, an unlock undoes one level, a wait drops all levels
      and later takes exactly as many back. */
  predicate AbsStep(a: Abstract, a': Abstract, t: nat, th: Thread) {
    var depth := |th.held|;
    || a' == a
    || match th.pc
       case Idle => false
       case Locking(_) =>
         a == (if depth == 0 then Free else Owned(t, depth)) && a' == Owned(t, depth + 1)
       case Unlocking(_) =>
         a == Owned(t, depth) && a' == (if depth <= 1 then Free else Owned(t, depth - 1))
       case Waiting(_) =>
         (a == Owned(t, depth) && a' == Free) || (a == Free && a' == Owned(t, depth))
  }

  lemma LockRefines(s: State, t: nat)
    requires Here(s, t) && CanStep(s, t) && s.threads[t].pc.Locking?
    ensures AbsStep(Abs(s), Abs(StepLock(s, t)), t, s.threads[t])
  {
    assert s.threads[t].held != [] ==> s.inner == Some(t);
  }

  lemma UnlockRefines(s: State, t: nat)
    requires Here(s, t) && CanStep(s, t) && s.threads[t].pc.Unlocking?
    ensures AbsStep(Abs(s), Abs(StepUnlock(s, t)), t, s.threads[t])
  {}

  lemma WaitRefines(s: State, t: nat)
    requires Here(s, t) && CanStep(s, t) && s.threads[t].pc.Waiting?
    ensures AbsStep(Abs(s), Abs(StepWait(s, t)), t, s.threads[t])
  {}

  /** The fields refine the abstract recursive lock: whatever thread moves, it changes them
      only as the call it is executing may change the abstract lock. */
  lemma StepRefines(s: State, t: nat)
    requires Inv(s) && CanStep(s, t)
    ensures AbsStep(Abs(s), Abs(Step(s, t)), t, s.threads[t])
  {
    assert Here(s, t);
    match s.threads[t].pc
    case Locking(l) => LockRefines(s, t);
    case Unlocking(u) => UnlockRefines(s, t);
    case Waiting(w) => WaitRefines(s, t);
  }

  /** How many own steps the holder of the semaphore is away from giving it back. */
  function ToRelease(pc: Pc): nat {
    match pc
    case Idle => 0
    case Locking(l) =>
      (match l
       case LockCheck => 5 case LockTest => 4 case LockRecurse => 3 case LockRecheck => 4
       case LockClaim => 3 case LockStamp => 2 case LockLeave => 1 case LockBackOff => 1
       case _ => 0)
    case Unlocking(u) =>
      (match u
       case UnlockCheck => 5 case UnlockOwner => 4 case UnlockCount => 3 case UnlockInner => 2
       case UnlockLeave => 1 case _ => 0)
    case Waiting(w) =>
      (match w
       case WaitCheck => 4 case WaitOwner => 3 case WaitSave => 2 case WaitPost => 1
       case WaitRecheck => 3 case WaitRestore => 2 case WaitLeave => 1 case _ => 0)
  }

  ghost predicate NearsRelease(s: State, t: nat)
    requires CanStep(s, t)
  {
    var pc' := Step(s, t).threads[t].pc;
    && 0 < ToRelease(s.threads[t].pc) <= 5
    && ToRelease(pc') < ToRelease(s.threads[t].pc)
    && (HasSem(pc') || Step(s, t).sem == s.sem + 1)
  }

  lemma LockNearsRelease(s: State, t: nat)
    requires CanStep(s, t) && s.threads[t].pc.Locking? && HasSem(s.threads[t].pc)
    ensures NearsRelease(s, t)
  {
    if Outer(s.threads[t].pc.l) { OuterNearsRelease(s, t); } else { InnerNearsRelease(s, t); }
  }

  lemma OuterNearsRelease(s: State, t: nat)
    requires CanStep(s, t) && s.threads[t].pc.Locking? && HasSem(s.threads[t].pc) && Outer(s.threads[t].pc.l)
    ensures NearsRelease(s, t)
  {}

  lemma InnerNearsRelease(s: State, t: nat)
    requires CanStep(s, t) && s.threads[t].pc.Locking? && HasSem(s.threads[t].pc) && !Outer(s.threads[t].pc.l)
    ensures NearsRelease(s, t)
  {}

  lemma UnlockNearsRelease(s: State, t: nat)
    requires CanStep(s, t) && s.threads[t].pc.Unlocking? && HasSem(s.threads[t].pc)
    ensures NearsRelease(s, t)
  {}

  lemma WaitNearsRelease(s: State, t: nat)
    requires CanStep(s, t) && s.threads[t].pc.Waiting? && HasSem(s.threads[t].pc)
    ensures NearsRelease(s, t)
  {
    if Leaving(s.threads[t].pc.w) { LeavingNearsRelease(s, t); } else { BackNearsRelease(s, t); }
  }

  lemma LeavingNearsRelease(s: State, t: nat)
    requires CanStep(s, t) && s.threads[t].pc.Waiting? && HasSem(s.threads[t].pc) && Leaving(s.threads[t].pc.w)
    ensures NearsRelease(s, t)
  {}

  lemma BackNearsRelease(s: State, t: nat)
    requires CanStep(s, t) && s.threads[t].pc.Waiting? && HasSem(s.threads[t].pc) && !Leaving(s.threads[t].pc.w)
    ensures NearsRelease(s, t)
  {}

  /** The holder of the semaphore is never blocked, and every step it takes brings it nearer
      to releasing it, at most five steps away. */
  lemma SemHolderAdvances(s: State, t: nat)
    requires Inv(s) && t < |s.threads| && HasSem(s.threads[t].pc)
    ensures CanStep(s, t) && NearsRelease(s, t)
  {
    assert s.sem == 0;
    match s.threads[t].pc
    case Locking(_) => LockNearsRelease(s, t);
    case Unlocking(_) => UnlockNearsRelease(s, t);
    case Waiting(_) => WaitNearsRelease(s, t);
  }

  /** A thread in its own code, outside every call, that has the lock. */
  predicate OutsideHolding(s: State, t: nat) {
    t < |s.threads| && s.threads[t].pc.Idle? && s.threads[t].held != []
  }

  /** The lock's internals cannot deadlock. If no thread inside a call can move, then every
      one of them is waiting for an inner mutex whose holder is in its own code. In
      particular no thread waits for itself or for the semaphore. */
  lemma NoInternalDeadlock(s: State, t: nat)
    requires Inv(s) && t < |s.threads| && !s.threads[t].pc.Idle?
    requires forall u :: 0 <= u < |s.threads| ==> !CanStep(s, u)
    ensures WantsInner(s.threads[t].pc)
    ensures s.inner.Some? && s.inner.value != t && OutsideHolding(s, s.inner.value)
  {
    if s.sem == 0 {
      var h :| 0 <= h < |s.threads| && HasSem(s.threads[h].pc);
      SemHolderAdvances(s, h);
    }
    assert !CanStep(s, t);
    var h := s.inner.value;
    assert HasInner(s.threads[h]);
    assert !CanStep(s, h);
    assert ThreadInv(s.threads[h]);
  }

  // ---- every call comes to its end ------------------------------------------------------

  /** How many own steps a call may still have before it. */
  function ToReturn(pc: Pc): nat {
    match pc
    case Idle => 0
    case Locking(l) =>
      (match l
       case LockEnter => 10 case LockCheck => 9 case LockTest => 8 case LockBackOff => 7 case LockInner => 6
       case LockReenter => 5 case LockRecheck => 4 case LockClaim => 3 case LockRecurse => 3
       case LockStamp => 2 case LockLeave => 1)
    case Unlocking(u) =>
      (match u
       case UnlockEnter => 6 case UnlockCheck => 5 case UnlockOwner => 4 case UnlockCount => 3
       case UnlockInner => 2 case UnlockLeave => 1)
    case Waiting(w) =>
      (match w
       case WaitEnter => 11 case WaitCheck => 10 case WaitOwner => 9 case WaitSave => 8 case WaitPost => 7
       case WaitSleep => 6 case WaitAsleep => 5 case WaitReenter => 4 case WaitRecheck => 3
       case WaitRestore => 2 case WaitLeave => 1)
  }

  function Total(threads: seq<Thread>): nat {
    if threads == [] then 0 else Total(threads[..|threads| - 1]) + ToReturn(threads[|threads| - 1].pc)
  }

  lemma {:induction false} TotalUpdate(threads: seq<Thread>, t: nat, th: Thread)
    requires t < |threads|
    ensures Total(threads[t := th]) == Total(threads) - ToReturn(threads[t].pc) + ToReturn(th.pc)
  {
    var n, threads' := |threads| - 1, threads[t := th];
    if t < n {
      TotalUpdate(threads[..n], t, th);
      assert threads'[..n] == threads[..n][t := th];
    } else {
      assert threads'[..n] == threads[..n];
    }
  }

  lemma OuterNearsReturn(s: State, t: nat)
    requires CanStep(s, t) && s.threads[t].pc.Locking? && Outer(s.threads[t].pc.l)
    ensures ToReturn(StepLock(s, t).threads[t].pc) < ToReturn(s.threads[t].pc)
  {}

  lemma InnerNearsReturn(s: State, t: nat)
    requires CanStep(s, t) && s.threads[t].pc.Locking? && !Outer(s.threads[t].pc.l)
    ensures ToReturn(StepLock(s, t).threads[t].pc) < ToReturn(s.threads[t].pc)
  {}

  lemma UnlockNearsReturn(s: State, t: nat)
    requires CanStep(s, t) && s.threads[t].pc.Unlocking?
    ensures ToReturn(StepUnlock(s, t).threads[t].pc) < ToReturn(s.threads[t].pc)
  {}

  lemma LeavingNearsReturn(s: State, t: nat)
    requires CanStep(s, t) && s.threads[t].pc.Waiting? && Leaving(s.threads[t].pc.w)
    ensures ToReturn(StepWait(s, t).threads[t].pc) < ToReturn(s.threads[t].pc)
  {}

  lemma BackNearsReturn(s: State, t: nat)
    requires CanStep(s, t) && s.threads[t].pc.Waiting? && !Leaving(s.threads[t].pc.w)
    ensures ToReturn(StepWait(s, t).threads[t].pc) < ToReturn(s.threads[t].pc)
  {}

  /** Every step of a call, of whatever thread, brings that call nearer to its return. */
  lemma StepNearsReturn(s: State, t: nat)
    requires Inv(s) && CanStep(s, t)
    ensures Inv(Step(s, t)) && ToReturn(Step(s, t).threads[t].pc) < ToReturn(s.threads[t].pc)
    ensures Total(Step(s, t).threads) < Total(s.threads)
  {
    match s.threads[t].pc {
      case Locking(l) => if Outer(l) { OuterNearsReturn(s, t); } else { InnerNearsReturn(s, t); }
      case Unlocking(_) => UnlockNearsReturn(s, t);
      case Waiting(w) => if Leaving(w) { LeavingNearsReturn(s, t); } else { BackNearsReturn(s, t); }
    }
    assert Here(s, t);
    StepMoves(s, t);
    MoveKeepsInv(s, Step(s, t), t);
    TotalUpdate(s.threads, t, Step(s, t).threads[t]);
  }

  ghost predicate CallStep(s: State, s': State) { exists t :: CanStep(s, t) && s' == Step(s, t) }

  /** What may happen from a state on without new calls. */
  ghost predicate GoesOn(s: State, r: seq<State>) {
    |r| > 0 && r[0] == s && forall i :: 0 <= i < |r| - 1 ==> CallStep(r[i], r[i + 1])
  }

  lemma {:induction false} RunNearsRest(s: State, r: seq<State>, i: nat)
    requires Inv(s) && GoesOn(s, r) && i < |r|
    ensures Inv(r[i]) && i + Total(r[i].threads) <= Total(s.threads)
  {
    if i > 0 {
      RunNearsRest(s, r, i - 1);
      assert CallStep(r[i - 1], r[i - 1 + 1]);
      var t :| CanStep(r[i - 1], t) && r[i] == Step(r[i - 1], t);
      StepNearsReturn(r[i - 1], t);
    }
  }

  /** Without new calls the threads come to rest within a known number of steps, in whatever order
      they run; and then every call has returned, or there is a thread in its own code that has
      the lock, and all calls left are waiting for it. */
  lemma CallsSettle(s: State, r: seq<State>, t: nat)
    requires Inv(s) && GoesOn(s, r)
    ensures |r| <= Total(s.threads) + 1
    ensures var s' := r[|r| - 1];
            (forall u :: 0 <= u < |s'.threads| ==> !CanStep(s', u)) && t < |s'.threads| && !s'.threads[t].pc.Idle? ==>
              && WantsInner(s'.threads[t].pc)
              && s'.inner.Some? && s'.inner.value != t && OutsideHolding(s', s'.inner.value)
  {
    RunNearsRest(s, r, |r| - 1);
    var s' := r[|r| - 1];
    if (forall u :: 0 <= u < |s'.threads| ==> !CanStep(s', u)) && t < |s'.threads| && !s'.threads[t].pc.Idle? {
      NoInternalDeadlock(s', t);
    }
  }

  // ---- what a call does --------------------------------------------------------------------

  /** The open locks of a thread when the call it is in has returned. */
  function HeldAfter(th: Thread): seq<Hold> {
    match th.pc
    case Idle => th.held
    case Locking(_) => th.held + [Hold(th.arg, InForce(th))]
    case Unlocking(_) => if th.held == [] then [] else th.held[..|th.held| - 1]
    case Waiting(_) => th.held
  }

  lemma SameCallSameHeld(th: Thread, th': Thread)
    requires SameCall(th, th')
    ensures HeldAfter(th') == HeldAfter(th)
  {}

  lemma StepSameHeld(s: State, t: nat)
    requires Here(s, t) && CanStep(s, t)
    ensures HeldAfter(Step(s, t).threads[t]) == HeldAfter(s.threads[t])
  {
    var th, th' := s.threads[t], Step(s, t).threads[t];
    if th.pc !in {Locking(LockLeave), Unlocking(UnlockLeave)} {
      match th.pc {
        case Locking(l) => if Outer(l) { OuterSameCall(s, t); } else { InnerSameCall(s, t); }
        case Unlocking(_) => UnlockSameCall(s, t);
        case Waiting(_) => WaitSameCall(s, t);
      }
      SameCallSameHeld(th, th');
    }
  }

  /** All other threads are outside and hold nothing. */
  ghost predicate Alone(s: State, t: nat) {
    t < |s.threads| && forall u :: 0 <= u < |s.threads| && u != t ==> s.threads[u].pc.Idle? && s.threads[u].held == []
  }

  lemma AloneCanStep(s: State, t: nat)
    requires Inv(s) && Alone(s, t) && !s.threads[t].pc.Idle?
    ensures CanStep(s, t)
  {
    assert Here(s, t);
    if s.sem == 0 {
      var u :| 0 <= u < |s.threads| && HasSem(s.threads[u].pc);
    }
    if s.inner.Some? { assert HasInner(s.threads[s.inner.value]); }
  }

  lemma AloneSteps(s: State, t: nat)
    requires Inv(s) && Alone(s, t) && !s.threads[t].pc.Idle?
    ensures CanStep(s, t) && Alone(Step(s, t), t) && |Step(s, t).threads| == |s.threads|
    ensures HeldAfter(Step(s, t).threads[t]) == HeldAfter(s.threads[t])
  {
    AloneCanStep(s, t);
    assert Here(s, t);
    StepMoves(s, t);
    StepSameHeld(s, t);
  }

  lemma {:induction false} CallCanReturn(s: State, t: nat) returns (r: seq<State>)
    requires Inv(s) && Alone(s, t)
    ensures GoesOn(s, r) && Inv(r[|r| - 1]) && |r[|r| - 1].threads| == |s.threads|
    ensures r[|r| - 1].threads[t].pc.Idle? && r[|r| - 1].threads[t].held == HeldAfter(s.threads[t])
    ensures Alone(r[|r| - 1], t)
    decreases ToReturn(s.threads[t].pc)
  {
    if s.threads[t].pc.Idle? {
      r := [s];
    } else {
      AloneSteps(s, t);
      StepNearsReturn(s, t);
      var r' := CallCanReturn(Step(s, t), t);
      StepFirst(s, t, r');
      r := [s] + r';
    }
  }

  lemma StepFirst(s: State, t: nat, r: seq<State>)
    requires CanStep(s, t) && GoesOn(Step(s, t), r)
    ensures GoesOn(s, [s] + r)
  {
    var r' := [s] + r;
    forall i | 0 <= i < |r'| - 1 ensures CallStep(r'[i], r'[i + 1]) {
      if i > 0 { assert CallStep(r[i - 1], r[i - 1 + 1]); }
    }
  }

  /** A call made while no other thread is in one or holds the lock returns, and this is what it
      does: a lock adds one that has returned the description in force before, an unlock takes the
      last one away, and a wait leaves all locks as they were. */
  lemma CallReturns(s: State, t: nat, op: Op) returns (r: seq<State>)
    requires Inv(s) && Alone(s, t) && MayBegin(s.threads[t], op)
    ensures GoesOn(Put(s, t, Begin(s.threads[t], op)), r) && |r[|r| - 1].threads| == |s.threads|
    ensures var th, th' := s.threads[t], r[|r| - 1].threads[t];
            && th'.pc.Idle?
            && th'.held == match op
               case Lock(place) => th.held + [Hold(place, if th.held == [] then None else s.last)]
               case Unlock(_) => th.held[..|th.held| - 1]
               case Wait(_) => th.held
    ensures r[|r| - 1].count == |r[|r| - 1].threads[t].held|
  {
    var s1 := Put(s, t, Begin(s.threads[t], op));
    assert Here(s, t);
    BeginMoves(s, t, op);
    MoveKeepsInv(s, s1, t);
    BeginHeld(s.threads[t], op);
    r := CallCanReturn(s1, t);
    CountAtRest(r[|r| - 1], t);
  }

  lemma BeginHeld(th: Thread, op: Op)
    requires MayBegin(th, op)
    ensures HeldAfter(Begin(th, op)) == match op
              case Lock(place) => th.held + [Hold(place, InForce(th))]
              case Unlock(_) => th.held[..|th.held| - 1]
              case Wait(_) => th.held
  {}

  lemma CountAtRest(s: State, t: nat)
    requires Inv(s) && Alone(s, t) && s.threads[t].pc.Idle?
    ensures s.count == |s.threads[t].held|
  {
    assert Here(s, t);
    if s.inner.Some? { assert HasInner(s.threads[s.inner.value]); }
  }
}
