/**
  The event manager of src/event.c: posters put events into a ring of 256 slots, one main
  loop takes them out and starts a handler thread for each, the handler calls the listeners
  and releases the event.

  Events are numbered as they are posted. Every access to an event's record checks that the
  record has not been freed; `failed` records such an access as well as a failing assertion.

  The listeners of one source and event type form a list with a lock, which a handler holds
  while it goes through the list (702-775), also during the calls it makes itself. A listener
  may make blocking posts and may add or remove listeners, and then waits inside these calls.
 */
module EventQueue {
  import opened Wrappers
  import opened Sequences

  const EVENT_MAX_EVENTS: nat := 256
  const LLIST_NO_ELEMS: nat := 50

  /** Where the thread in em_postEvent is. */
  datatype Poster =
    | Checked    // 314 done: past the check for a free slot
    | Inserted   // 319-340 done: the event is in the ring
    | Signalled  // 344 done: eventsInQueue posted
    | Returned

  /** What a listener waits for. */
  datatype Wait =
    | Nothing               // running, or back from what it waited for
    | ForPost(event: nat)   // in em_postEvent, for a blocking event of its own
    | ForLock(list: nat)    // in em_addListener (423) or em_removeListener (489)

  /** An entry of a listener list. */
  datatype Entry = Entry(func: nat, newThread: bool)

  /** Where the thread in em_handleOneEvent is. */
  datatype Handler =
    | NotStarted
    | Looking                               // 675-698
    | Locking                               // 702
    | Looping(todo: seq<Entry>)             // 707-775: the rest of the list
    | Calling(now: Entry, todo: seq<Entry>, wait: Wait)  // 765: inside a listener
    | Joining                               // 780-784
    | Freeing                               // 622-623
    | Finishing                             // 625-635
    | Ended

  /** `list` stands for the source and the type. `started` counts listener threads created
      (threadWaitCntr), `ended` those that have returned, `threads` are the others; `freeCalls`
      counts the calls of the free function, `recordFrees` the times the record was freed.
      `listeners` are those in the list when it was locked, `served` those that have been called
      and have returned, or for which a thread was started, in this order. */
  datatype Event = Event(blocking: bool, hasFree: bool, list: nat, poster: Poster, handler: Handler,
                         sem: nat, started: nat, ended: nat, threads: map<nat, Wait>,
                         freeCalls: nat, recordFrees: nat, listeners: seq<Entry>, served: seq<Entry>)

  datatype MainLoop =
    | AtWait               // 549
    | GotToken             // 556-559
    | Read(event: nat)     // 561-564
    | Moved(event: nat)    // 571

  /** `posted` and `dispatched` record the order in which events were put into the ring and
      handler threads were started for them. `lists` are the listener lists that exist, which
      are never removed; `locks` tells for each locked one the event whose handler holds it. */
  datatype State = State(slots: seq<nat>, front: nat, back: nat, sem: nat, loop: MainLoop,
                         events: seq<Event>, posted: seq<nat>, dispatched: seq<nat>,
                         lists: set<nat>, locks: map<nat, nat>, failed: bool)

  /** A listener of event e: the one its handler is calling, or one in thread t. */
  datatype Listener = Inline(e: nat) | InThread(e: nat, t: nat)

  datatype Action =
    | Check(blocking: bool, hasFree: bool, list: nat)       // em_postEvent, 314
    | PostFrom(l: Listener, hasFree: bool, list: nat)       // the same in a listener, blocking
    | AskFor(l: Listener, list: nat)                        // a listener adds or removes one
    | AddList(list: nat)                                    // em_addListener, 396-415
    | Insert(e: nat)                                        // 319-340
    | Signal(e: nat)                                        // 344
    | Await(e: nat)                                         // 347-357
    | Loop                                                  // one step of em_mainLoop
    | Handle(e: nat, listeners: seq<Entry>)                  // one step of a handler thread
    | ListenerEnds(e: nat, t: nat)                          // a listener thread returns

  function Next(i: nat): nat { (i + 1) % EVENT_MAX_EVENTS }

  predicate IsListener(s: State, l: Listener) {
    && l.e < |s.events|
    && match l
       case Inline(e) => s.events[e].handler.Calling?
       case InThread(e, t) => t in s.events[e].threads
  }

  function WaitOf(s: State, l: Listener): Wait
    requires IsListener(s, l)
  {
    match l
    case Inline(e) => s.events[e].handler.wait
    case InThread(e, t) => s.events[e].threads[t]
  }

  /** A wait is over when the post has returned, or the lock is free. The locks are recursive: a
      listener called by the handler that holds the lock gets it at once. */
  predicate Over(s: State, l: Listener)
    requires IsListener(s, l)
  {
    match WaitOf(s, l)
    case Nothing => true
    case ForPost(f) => f < |s.events| && s.events[f].poster == Returned
    case ForLock(k) => k !in s.locks || (l.Inline? && s.locks[k] == l.e)
  }

  predicate CanHandle(s: State, e: nat)
    requires e < |s.events|
  {
    match s.events[e].handler
    case NotStarted => false
    case Locking => s.events[e].list !in s.locks
    case Calling(_, _, _) => Over(s, Inline(e))
    case Joining => s.events[e].threads == map[]
    case Ended => false
    case _ => true
  }

  predicate Can(s: State, a: Action) {
    match a
    case Check(_, _, _) => true
    case PostFrom(l, _, _) => IsListener(s, l) && Over(s, l)
    case AskFor(l, _) => IsListener(s, l) && Over(s, l)
    case AddList(_) => true
    case Insert(e) => e < |s.events| && s.events[e].poster == Checked && s.back < |s.slots|
    case Signal(e) => e < |s.events| && s.events[e].poster == Inserted
    case Await(e) =>
      && e < |s.events| && s.events[e].poster == Signalled
      && (s.events[e].blocking ==> s.events[e].sem > 0)
    case Loop => (s.loop.AtWait? ==> s.sem > 0) && s.front < |s.slots|
                 && (s.loop.Moved? ==> s.loop.event < |s.events|)
    case Handle(e, listeners) => e < |s.events| && CanHandle(s, e) && |listeners| <= LLIST_NO_ELEMS
    case ListenerEnds(e, t) => IsListener(s, InThread(e, t)) && Over(s, InThread(e, t))
  }

  function Put(s: State, e: nat, ev: Event): State
    requires e < |s.events|
  {
    s.(events := s.events[e := ev])
  }

  function Assert(s: State, ok: bool): (s': State)
    ensures s'.failed <==> s.failed || !ok
  {
    s.(failed := s.failed || !ok)
  }

  /** The record of an event is about to be read or written. */
  function Touch(s: State, e: nat): State
    requires e < |s.events|
  {
    Assert(s, s.events[e].recordFrees == 0)
  }

  function NewEvent(blocking: bool, hasFree: bool, list: nat): Event {
    Event(blocking, hasFree, list, Checked, NotStarted, 0, 0, 0, map[], 0, 0, [], [])
  }

  function DoCheck(s: State, blocking: bool, hasFree: bool, list: nat): State {
    Assert(s, Next(s.back) != s.front).(events := s.events + [NewEvent(blocking, hasFree, list)])
  }

  /** The event of a listener that begins to wait. */
  function Waiting(ev: Event, l: Listener, w: Wait): Event {
    match l
    case Inline(_) => if ev.handler.Calling? then ev.(handler := ev.handler.(wait := w)) else ev
    case InThread(_, t) => ev.(threads := ev.threads[t := w])
  }

  function Ending(ev: Event, t: nat): Event { ev.(threads := ev.threads - {t}, ended := ev.ended + 1) }

  function SetWait(s: State, l: Listener, w: Wait): State
    requires l.e < |s.events|
  {
    Put(s, l.e, Waiting(s.events[l.e], l, w))
  }

  /** A step of a handler; `found` tells that there is a listener list. */
  function StepHandler(ev: Event, found: bool, listeners: seq<Entry>): Event {
    match ev.handler
    case NotStarted => ev
    case Looking => ev.(handler := if found then Locking else Freeing)
    case Locking => ev.(handler := Looping(listeners), listeners := listeners)
    case Looping(todo) =>
      if todo == [] then ev.(handler := Joining)
      else if todo[0].newThread
      then ev.(started := ev.started + 1, threads := ev.threads[ev.started := Nothing],
               served := ev.served + [todo[0]], handler := Looping(todo[1..]))
      else ev.(handler := Calling(todo[0], todo[1..], Nothing))
    case Calling(now, todo, _) => ev.(served := ev.served + [now], handler := Looping(todo))
    case Joining => ev.(handler := Freeing)
    case Freeing =>
      ev.(freeCalls := ev.freeCalls + (if ev.hasFree then 1 else 0), handler := Finishing)
    case Finishing =>
      if ev.blocking then ev.(sem := ev.sem + 1, handler := Ended)
      else ev.(recordFrees := ev.recordFrees + 1, handler := Ended)
    case Ended => ev
  }

  /** The lock is taken at 702 and released at 775. */
  function StepLocks(locks: map<nat, nat>, e: nat, ev: Event): map<nat, nat> {
    if ev.handler.Locking? then locks[ev.list := e]
    else if ev.handler == Looping([]) then locks - {ev.list}
    else locks
  }

  /** The handler is about to start a listener thread, for which there must be room in the list
      of threads to wait for (747). */
  predicate StartsThread(ev: Event) { ev.handler.Looping? && ev.handler.todo != [] && ev.handler.todo[0].newThread }

  /** Steps of the handler that use the event record; joining threads does not. */
  predicate Touches(h: Handler) { !h.Joining? && !h.Calling? }

  function DoHandle(s: State, e: nat, listeners: seq<Entry>): State
    requires e < |s.events|
  {
    var ev := s.events[e];
    Put(Assert(if Touches(ev.handler) then Touch(s, e) else s, StartsThread(ev) ==> ev.started < LLIST_NO_ELEMS),
        e, StepHandler(ev, ev.list in s.lists, listeners))
      .(locks := StepLocks(s.locks, e, ev))
  }

  function DoLoop(s: State): State
    requires Can(s, Loop)
  {
    match s.loop
    case AtWait => s.(sem := s.sem - 1, loop := GotToken)
    case GotToken => Assert(s, s.front != s.back).(loop := Read(s.slots[s.front]))
    case Read(e) => s.(front := Next(s.front), loop := Moved(e))
    case Moved(e) =>
      Put(Assert(s, s.events[e].handler == NotStarted), e, s.events[e].(handler := Looking))
        .(dispatched := s.dispatched + [e], loop := AtWait)
  }

  function Do(s: State, a: Action): State
    requires Can(s, a)
  {
    match a
    case Check(blocking, hasFree, list) => DoCheck(s, blocking, hasFree, list)
    case PostFrom(l, hasFree, list) => SetWait(DoCheck(s, true, hasFree, list), l, ForPost(|s.events|))
    case AskFor(l, list) => SetWait(s, l, ForLock(list))
    case AddList(list) => s.(lists := s.lists + {list})
    case Insert(e) =>
      Put(Touch(s, e), e, s.events[e].(poster := Inserted))
        .(slots := s.slots[s.back := e], back := Next(s.back), posted := s.posted + [e])
    case Signal(e) => Put(s, e, s.events[e].(poster := Signalled)).(sem := s.sem + 1)
    case Await(e) =>
      var ev := s.events[e];
      if ev.blocking
      then Put(Touch(s, e), e, ev.(sem := ev.sem - 1, recordFrees := ev.recordFrees + 1, poster := Returned))
      else Put(s, e, ev.(poster := Returned))
    case Loop => DoLoop(s)
    case Handle(e, listeners) => DoHandle(s, e, listeners)
    case ListenerEnds(e, t) => Put(s, e, Ending(s.events[e], t))
  }

  // ---- the inductive invariant --------------------------------------------------------------

  predicate BeforeLock(h: Handler) { h.NotStarted? || h.Looking? || h.Locking? }

  /** The handler goes through its list, whose lock it holds. */
  predicate InLoop(h: Handler) { h.Looping? || h.Calling? }

  /** Who has been served, who is being called and who is to come make up the list found, in
      order; and one thread was started for each entry that asks for one. */
  predicate ServedOk(ev: Event) {
    && ev.started == Threads(ev.served)
    && match ev.handler
       case Looping(todo) => ev.served + todo == ev.listeners
       case Calling(now, todo, _) => ev.served + [now] + todo == ev.listeners && !now.newThread
       case _ => ev.served == ev.listeners
  }

  /** How many entries ask for a thread of their own. */
  function Threads(entries: seq<Entry>): nat {
    if entries == [] then 0
    else Threads(entries[..|entries| - 1]) + if entries[|entries| - 1].newThread then 1 else 0
  }

  /** The life of one event record. */
  predicate EventOk(ev: Event) {
    && ServedOk(ev) && ev.started == ev.ended + |ev.threads|
    && (ev.handler in {NotStarted, Looking, Locking} ==> ev.started == 0 && ev.served == [])
    && (InLoop(ev.handler) ==> ev.started + |ev.handler.todo| <= LLIST_NO_ELEMS)
    && (ev.threads != map[] ==> InLoop(ev.handler) || ev.handler.Joining?)
    && (forall t :: t in ev.threads ==> t < ev.started)
    && ev.freeCalls == (if ev.hasFree && ev.handler in {Finishing, Ended} then 1 else 0)
    && ev.recordFrees == (if ev.blocking then (if ev.poster == Returned then 1 else 0)
                          else (if ev.handler == Ended then 1 else 0))
    && ev.sem == (if ev.blocking && ev.handler == Ended && ev.poster != Returned then 1 else 0)
    && (ev.blocking && ev.poster == Returned ==> ev.handler == Ended)
    && (ev.poster == Checked ==> ev.handler == NotStarted)
  }

  /** The events already taken out of the ring, oldest first. */
  function Taken(s: State): seq<nat> {
    if s.loop.Moved? then s.dispatched + [s.loop.event] else s.dispatched
  }

  /** The events in the ring. */
  function InRing(s: State): seq<nat> {
    if |Taken(s)| <= |s.posted| then s.posted[|Taken(s)|..] else []
  }

  ghost function At(s: State, p: Poster): set<nat> {
    set e: nat | e < |s.events| && s.events[e].poster == p
  }

  /** Posts that have passed the check and events that have not left the ring. */
  ghost function Outstanding(s: State): nat { |InRing(s)| + |At(s, Checked)| }

  ghost predicate RingOk(slots: seq<nat>, front: nat, back: nat, q: seq<nat>) {
    && |slots| == EVENT_MAX_EVENTS && front < |slots| && |q| < |slots|
    && back == (front + |q|) % EVENT_MAX_EVENTS
    && forall k :: 0 <= k < |q| ==> slots[(front + k) % EVENT_MAX_EVENTS] == q[k]
  }

  /** Every event in the ring has one token: in the semaphore, in the main loop's hand, or
      still to be posted. */
  ghost predicate TokensOk(s: State) {
    |InRing(s)| == s.sem + |At(s, Inserted)| + if s.loop.GotToken? || s.loop.Read? then 1 else 0
  }

  ghost predicate OrderOk(s: State) {
    && Taken(s) <= s.posted
    && (s.loop.Read? ==> InRing(s) != [] && InRing(s)[0] == s.loop.event)
    && Distinct(s.posted)
    && (forall e: nat :: e in s.posted <==> e < |s.events| && s.events[e].poster != Checked)
    && (forall e: nat :: e in s.dispatched <==> e < |s.events| && s.events[e].handler != NotStarted)
  }

  /** A list is locked by a handler that goes through it, and by no other. */
  ghost predicate LocksOk(s: State) {
    && (forall k :: k in s.locks ==> LockOk(s, k))
    && (forall e :: 0 <= e < |s.events| ==> HoldsOk(s, e))
  }

  predicate LockOk(s: State, k: nat)
    requires k in s.locks
  {
    s.locks[k] < |s.events| && s.events[s.locks[k]].list == k && InLoop(s.events[s.locks[k]].handler)
  }

  predicate HoldsOk(s: State, e: nat)
    requires e < |s.events|
  {
    && (InLoop(s.events[e].handler) ==> s.events[e].list in s.locks && s.locks[s.events[e].list] == e)
    && (s.events[e].handler.Locking? || InLoop(s.events[e].handler) ==> s.events[e].list in s.lists)
  }

  /** A listener of event e that waits for a post waits for a blocking one, made after e. */
  predicate WaitOk(events: seq<Event>, e: nat, w: Wait) {
    w.ForPost? ==> e < w.event < |events| && events[w.event].blocking
  }

  ghost predicate WaitsOk(s: State) {
    forall l :: IsListener(s, l) ==> WaitOk(s.events, l.e, WaitOf(s, l))
  }

  /** The ring, the tokens and the records. */
  ghost predicate Core(s: State) {
    && !s.failed
    && RingOk(s.slots, s.front, s.back, InRing(s))
    && TokensOk(s) && OrderOk(s)
    && forall e :: 0 <= e < |s.events| ==> EventOk(s.events[e])
  }

  ghost predicate Inv(s: State) { Core(s) && LocksOk(s) && WaitsOk(s) }

  ghost predicate Init(s: State) {
    && |s.slots| == EVENT_MAX_EVENTS && s.front == 0 && s.back == 0 && s.sem == 0
    && s.loop == AtWait && s.events == [] && s.posted == [] && s.dispatched == [] && !s.failed
    && s.locks == map[]
  }

  ghost predicate Step(s: State, s': State) { exists a :: Can(s, a) && s' == Do(s, a) }

  /** A run in which fewer than 256 events are outstanding at any time. */
  ghost predicate Run(r: seq<State>) {
    && |r| > 0 && Init(r[0])
    && (forall i :: 0 <= i < |r| ==> Outstanding(r[i]) < EVENT_MAX_EVENTS)
    && forall i :: 0 <= i < |r| - 1 ==> Step(r[i], r[i + 1])
  }

  // ---- preservation ---------------------------------------------------------------------------

  lemma RingInsert(slots: seq<nat>, front: nat, back: nat, q: seq<nat>, e: nat)
    requires RingOk(slots, front, back, q) && |q| + 1 < EVENT_MAX_EVENTS
    ensures RingOk(slots[back := e], front, Next(back), q + [e])
    ensures Next(back) != front
  {
    var slots', q' := slots[back := e], q + [e];
    NextPlace(front, |q|);
    forall k | 0 <= k < |q| ensures slots'[(front + k) % EVENT_MAX_EVENTS] == q'[k] {
      SlotsApart(front, k, |q|);
    }
  }

  lemma NextPlace(front: nat, n: nat)
    requires front < EVENT_MAX_EVENTS && n < EVENT_MAX_EVENTS
    ensures Next((front + n) % EVENT_MAX_EVENTS) == (front + (n + 1)) % EVENT_MAX_EVENTS
    ensures n + 1 < EVENT_MAX_EVENTS ==> Next((front + n) % EVENT_MAX_EVENTS) != front
  {}

  lemma SlotsApart(front: nat, k: nat, n: nat)
    requires k < n < EVENT_MAX_EVENTS && front < EVENT_MAX_EVENTS
    ensures (front + k) % EVENT_MAX_EVENTS != (front + n) % EVENT_MAX_EVENTS
  {}

  lemma RingRemove(slots: seq<nat>, front: nat, back: nat, q: seq<nat>)
    requires RingOk(slots, front, back, q) && q != []
    ensures RingOk(slots, Next(front), back, q[1..])
    ensures front != back && slots[front] == q[0]
  {
    assert slots[(front + 0) % EVENT_MAX_EVENTS] == q[0];
    forall k | 0 <= k < |q[1..]| ensures slots[(Next(front) + k) % EVENT_MAX_EVENTS] == q[1..][k] {
      PlaceAfter(front, k);
    }
    PlaceAfter(front, |q| - 1);
  }

  lemma PlaceAfter(front: nat, k: nat)
    requires front < EVENT_MAX_EVENTS && k < EVENT_MAX_EVENTS
    ensures (Next(front) + k) % EVENT_MAX_EVENTS == (front + (k + 1)) % EVENT_MAX_EVENTS
  {}

  /** One event changes; where its poster stands may change from p to p'. */
  lemma PosterMoves(s: State, s': State, e: nat)
    requires |s'.events| == |s.events|
    requires e < |s.events| && s'.events == s.events[e := s'.events[e]]
    ensures forall p :: p != s.events[e].poster && p != s'.events[e].poster ==> At(s', p) == At(s, p)
    ensures s.events[e].poster == s'.events[e].poster ==> At(s', s.events[e].poster) == At(s, s.events[e].poster)
    ensures s.events[e].poster != s'.events[e].poster ==>
              && |At(s', s.events[e].poster)| == |At(s, s.events[e].poster)| - 1
              && |At(s', s'.events[e].poster)| == |At(s, s'.events[e].poster)| + 1
  {
    var p, p' := s.events[e].poster, s'.events[e].poster;
    if p != p' {
      assert At(s', p) == At(s, p) - {e};
      assert At(s', p') == At(s, p') + {e};
    }
  }

  lemma CheckKeepsOrder(s: State, blocking: bool, hasFree: bool, list: nat)
    requires OrderOk(s)
    ensures OrderOk(DoCheck(s, blocking, hasFree, list))
  {}

  lemma CheckKeepsEvents(s: State, blocking: bool, hasFree: bool, list: nat)
    requires forall e :: 0 <= e < |s.events| ==> EventOk(s.events[e])
    ensures var s' := DoCheck(s, blocking, hasFree, list); forall e :: 0 <= e < |s'.events| ==> EventOk(s'.events[e])
  {}

  lemma CheckKeepsCore(s: State, blocking: bool, hasFree: bool, list: nat)
    requires Core(s) && Outstanding(DoCheck(s, blocking, hasFree, list)) < EVENT_MAX_EVENTS
    ensures Core(DoCheck(s, blocking, hasFree, list))
  {
    var s' := DoCheck(s, blocking, hasFree, list);
    assert |s.events| in At(s', Checked);
    assert |At(s', Checked)| > 0;
    assert At(s', Inserted) == At(s, Inserted);
    RingInsert(s.slots, s.front, s.back, InRing(s), 0);
    CheckKeepsOrder(s, blocking, hasFree, list);
    CheckKeepsEvents(s, blocking, hasFree, list);
  }

  lemma InsertKeepsRing(s: State, e: nat)
    requires Core(s) && Can(s, Insert(e)) && Outstanding(s) < EVENT_MAX_EVENTS
    ensures InRing(Do(s, Insert(e))) == InRing(s) + [e]
    ensures RingOk(Do(s, Insert(e)).slots, s.front, Do(s, Insert(e)).back, InRing(s) + [e])
  {
    assert e in At(s, Checked);
    assert |At(s, Checked)| > 0;
    RingInsert(s.slots, s.front, s.back, InRing(s), e);
  }

  lemma InsertKeepsCore(s: State, e: nat)
    requires Core(s) && Can(s, Insert(e)) && Outstanding(s) < EVENT_MAX_EVENTS
    ensures Core(Do(s, Insert(e)))
  {
    InsertKeepsRing(s, e);
    InsertKeepsTokens(s, e);
    InsertKeepsOrder(s, e);
  }

  lemma InsertKeepsTokens(s: State, e: nat)
    requires TokensOk(s) && Can(s, Insert(e)) && InRing(Do(s, Insert(e))) == InRing(s) + [e]
    requires forall k :: 0 <= k < |s.events| ==> EventOk(s.events[k])
    ensures TokensOk(Do(s, Insert(e))) && Do(s, Insert(e)).failed == s.failed
    ensures var s' := Do(s, Insert(e)); forall k :: 0 <= k < |s'.events| ==> EventOk(s'.events[k])
  {
    assert EventOk(s.events[e]);
    PosterMoves(s, Do(s, Insert(e)), e);
  }

  lemma InsertKeepsOrder(s: State, e: nat)
    requires OrderOk(s) && Can(s, Insert(e))
    ensures OrderOk(Do(s, Insert(e)))
  {}

  /** A step that concerns one event already in the ring and nothing else but the tokens. */
  ghost predicate LocalStep(s: State, s': State, e: nat) {
    && |s'.events| == |s.events| && e < |s.events|
    && s'.events == s.events[e := s'.events[e]]
    && s' == s.(events := s'.events, sem := s'.sem, locks := s'.locks)
    && s.events[e].poster != Checked && s'.events[e].poster != Checked
    && (s.events[e].handler == NotStarted <==> s'.events[e].handler == NotStarted)
    && EventOk(s'.events[e])
  }

  lemma LocalStepKeepsOrder(s: State, s': State, e: nat)
    requires OrderOk(s) && LocalStep(s, s', e)
    ensures OrderOk(s')
  {}

  lemma LocalStepKeepsCore(s: State, s': State, e: nat)
    requires Core(s) && LocalStep(s, s', e)
    requires s'.sem + |At(s', Inserted)| == s.sem + |At(s, Inserted)|
    ensures Core(s')
  {
    LocalStepKeepsOrder(s, s', e);
    assert InRing(s') == InRing(s);
  }

  lemma SignalKeepsCore(s: State, e: nat)
    requires Core(s) && Can(s, Signal(e))
    ensures Core(Do(s, Signal(e)))
  {
    assert EventOk(s.events[e]);
    PosterMoves(s, Do(s, Signal(e)), e);
    LocalStepKeepsCore(s, Do(s, Signal(e)), e);
  }

  lemma AwaitIsLocal(s: State, e: nat)
    requires Can(s, Await(e)) && EventOk(s.events[e])
    ensures LocalStep(s, Do(s, Await(e)), e)
  {}

  lemma AwaitKeepsCore(s: State, e: nat)
    requires Core(s) && Can(s, Await(e))
    ensures Core(Do(s, Await(e)))
  {
    AwaitIsLocal(s, e);
    PosterMoves(s, Do(s, Await(e)), e);
    LocalStepKeepsCore(s, Do(s, Await(e)), e);
  }

  lemma LoopKeepsCore(s: State)
    requires Core(s) && Can(s, Loop)
    ensures Core(DoLoop(s))
  {
    var s' := DoLoop(s);
    if s.loop.AtWait? {
      assert At(s', Inserted) == At(s, Inserted);
    } else if s.loop.Moved? {
      DispatchKeepsCore(s);
    } else {
      assert At(s', Inserted) == At(s, Inserted);
      assert InRing(s) != [];
      RingRemove(s.slots, s.front, s.back, InRing(s));
      if s.loop.Read? {
        assert Taken(s') == s.posted[..|Taken(s)| + 1];
        assert InRing(s') == InRing(s)[1..];
      }
    }
  }

  lemma DispatchKeepsCore(s: State)
    requires Core(s) && Can(s, Loop) && s.loop.Moved?
    ensures Core(DoLoop(s))
  {
    var s', e := DoLoop(s), s.loop.event;
    assert Taken(s') == Taken(s);
    MovedIsNew(s);
    assert EventOk(s.events[e]);
    PosterMoves(s, s', e);
  }

  /** The event that the main loop has taken out of the ring has no handler yet. */
  lemma MovedIsNew(s: State)
    requires OrderOk(s) && s.loop.Moved?
    ensures s.loop.event in s.posted && s.loop.event !in s.dispatched && s.loop.event < |s.events|
    ensures s.events[s.loop.event].handler == NotStarted
  {
    var e, n := s.loop.event, |s.dispatched|;
    assert Taken(s)[n] == e && s.posted[n] == e;
    assert e in s.posted;
    assert e !in s.dispatched by {
      assert forall i :: 0 <= i < n ==> s.dispatched[i] == Taken(s)[i] == s.posted[i];
    }
  }

  lemma ServeNext(served: seq<Entry>, e: Entry, todo: seq<Entry>, listeners: seq<Entry>)
    requires served + [e] + todo == listeners
    ensures (served + [e]) + todo == listeners && served + ([e] + todo) == listeners
    ensures Threads(served + [e]) == Threads(served) + if e.newThread then 1 else 0
  {
    assert (served + [e])[..|served|] == served;
  }

  lemma LoopKeepsServed(ev: Event, found: bool, listeners: seq<Entry>)
    requires ServedOk(ev) && ev.handler.Looping? && ev.handler.todo != []
    ensures ServedOk(StepHandler(ev, found, listeners))
  {
    var todo := ev.handler.todo;
    assert ev.served + [todo[0]] + todo[1..] == ev.served + todo;
    ServeNext(ev.served, todo[0], todo[1..], ev.listeners);
  }

  lemma StepKeepsServed(ev: Event, found: bool, listeners: seq<Entry>)
    requires ServedOk(ev) && (ev.handler in {NotStarted, Looking, Locking} ==> ev.served == [])
    ensures ServedOk(StepHandler(ev, found, listeners))
  {
    match ev.handler
    case Looping(todo) => if todo != [] { LoopKeepsServed(ev, found, listeners); }
    case Calling(now, todo, _) => ServeNext(ev.served, now, todo, ev.listeners);
    case _ =>
  }

  lemma LoopKeepsEventOk(ev: Event, found: bool, listeners: seq<Entry>)
    requires ev.handler.Looping? && EventOk(ev)
    ensures var ev' := StepHandler(ev, found, listeners);
            && EventOk(ev') && ev'.poster == ev.poster && ev'.handler != NotStarted && ev'.list == ev.list
    ensures StartsThread(ev) ==> ev.started < LLIST_NO_ELEMS
  {
    StepKeepsServed(ev, found, listeners);
  }

  /** A step of the handler keeps its own event in order, uses the record only before it is
      freed and starts a listener thread only if there is room for it. */
  lemma StepKeepsEventOk(ev: Event, found: bool, listeners: seq<Entry>)
    requires ev.handler !in {NotStarted, Ended} && (ev.handler.Joining? ==> ev.threads == map[])
    requires EventOk(ev) && |listeners| <= LLIST_NO_ELEMS
    ensures var ev' := StepHandler(ev, found, listeners);
            && EventOk(ev') && ev'.poster == ev.poster && ev'.handler != NotStarted && ev'.list == ev.list
    ensures Touches(ev.handler) ==> ev.recordFrees == 0
    ensures StartsThread(ev) ==> ev.started < LLIST_NO_ELEMS
  {
    if ev.handler.Looping? {
      LoopKeepsEventOk(ev, found, listeners);
    } else {
      StepKeepsServed(ev, found, listeners);
    }
  }

  lemma HandleIsLocal(s: State, e: nat, listeners: seq<Entry>)
    requires Can(s, Handle(e, listeners)) && EventOk(s.events[e])
    ensures LocalStep(s, DoHandle(s, e, listeners), e)
  {
    StepKeepsEventOk(s.events[e], s.events[e].list in s.lists, listeners);
  }

  lemma HandleKeepsCore(s: State, e: nat, listeners: seq<Entry>)
    requires Core(s) && Can(s, Handle(e, listeners))
    ensures Core(DoHandle(s, e, listeners))
  {
    HandleIsLocal(s, e, listeners);
    PosterMoves(s, DoHandle(s, e, listeners), e);
    LocalStepKeepsCore(s, DoHandle(s, e, listeners), e);
  }

  lemma EndingOk(ev: Event, t: nat)
    requires EventOk(ev) && t in ev.threads
    ensures EventOk(Ending(ev, t))
  {}

  lemma ListenerEndsKeepsCore(s: State, e: nat, t: nat)
    requires Core(s) && Can(s, ListenerEnds(e, t))
    ensures Core(Do(s, ListenerEnds(e, t)))
  {
    assert EventOk(s.events[e]);
    EndingOk(s.events[e], t);
    PosterMoves(s, Do(s, ListenerEnds(e, t)), e);
    LocalStepKeepsCore(s, Do(s, ListenerEnds(e, t)), e);
  }

  lemma WaitKeepsCore(s: State, l: Listener, w: Wait)
    requires Core(s) && IsListener(s, l)
    ensures Core(SetWait(s, l, w))
  {
    assert EventOk(s.events[l.e]);
    PosterMoves(s, SetWait(s, l, w), l.e);
    LocalStepKeepsCore(s, SetWait(s, l, w), l.e);
  }

  lemma SameOutstanding(s: State, l: Listener, w: Wait)
    requires l.e < |s.events|
    ensures Outstanding(SetWait(s, l, w)) == Outstanding(s)
  {
    PosterMoves(s, SetWait(s, l, w), l.e);
  }

  lemma PostFromKeepsCore(s: State, l: Listener, hasFree: bool, list: nat)
    requires Core(s) && Can(s, PostFrom(l, hasFree, list))
    requires Outstanding(Do(s, PostFrom(l, hasFree, list))) < EVENT_MAX_EVENTS
    ensures Core(Do(s, PostFrom(l, hasFree, list)))
  {
    var s1 := DoCheck(s, true, hasFree, list);
    SameOutstanding(s1, l, ForPost(|s.events|));
    CheckKeepsCore(s, true, hasFree, list);
    WaitKeepsCore(s1, l, ForPost(|s.events|));
  }

  lemma AddListKeepsCore(s: State, list: nat)
    requires Core(s)
    ensures Core(s.(lists := s.lists + {list}))
  {
    assert At(s.(lists := s.lists + {list}), Inserted) == At(s, Inserted);
  }

  lemma DoKeepsCore(s: State, a: Action)
    requires Core(s) && Can(s, a)
    requires Outstanding(s) < EVENT_MAX_EVENTS && Outstanding(Do(s, a)) < EVENT_MAX_EVENTS
    ensures Core(Do(s, a))
  {
    match a
    case Check(blocking, hasFree, list) => CheckKeepsCore(s, blocking, hasFree, list);
    case PostFrom(l, hasFree, list) => PostFromKeepsCore(s, l, hasFree, list);
    case AskFor(l, list) => WaitKeepsCore(s, l, ForLock(list));
    case AddList(list) => AddListKeepsCore(s, list);
    case Insert(e) => InsertKeepsCore(s, e);
    case Signal(e) => SignalKeepsCore(s, e);
    case Await(e) => AwaitKeepsCore(s, e);
    case Loop => LoopKeepsCore(s);
    case Handle(e, listeners) => HandleKeepsCore(s, e, listeners);
    case ListenerEnds(e, t) => ListenerEndsKeepsCore(s, e, t);
  }

  // ---- the locks and the waits ------------------------------------------------------------------

  /** Events keep their lists, and their handlers stay in their loops or out of them. */
  ghost predicate SameLoops(s: State, s': State) {
    && |s.events| <= |s'.events| && s'.locks == s.locks && s.lists <= s'.lists
    && (forall e :: 0 <= e < |s.events| ==> SameLoop(s.events[e], s'.events[e]))
    && (forall e :: |s.events| <= e < |s'.events| ==> s'.events[e].handler == NotStarted)
  }

  predicate SameLoop(ev: Event, ev': Event) {
    && ev'.list == ev.list && (InLoop(ev'.handler) <==> InLoop(ev.handler))
    && (ev'.handler.Locking? <==> ev.handler.Locking?)
  }

  lemma SameLoopsKeepLocks(s: State, s': State)
    requires LocksOk(s) && SameLoops(s, s')
    ensures LocksOk(s')
  {
    forall k | k in s'.locks ensures LockOk(s', k) {
      assert LockOk(s, k);
      assert SameLoop(s.events[s.locks[k]], s'.events[s.locks[k]]);
    }
    forall e | 0 <= e < |s'.events| ensures HoldsOk(s', e) {
      if e < |s.events| { assert HoldsOk(s, e) && SameLoop(s.events[e], s'.events[e]); }
    }
  }

  /** One event changes and nothing else that concerns the locks. */
  ghost predicate OneChanges(s: State, s': State, e: nat) {
    && e < |s.events| && |s'.events| == |s.events| && s'.events == s.events[e := s'.events[e]]
    && s'.locks == s.locks && s'.lists == s.lists
  }

  lemma OneKeepsLoops(s: State, s': State, e: nat)
    requires OneChanges(s, s', e) && SameLoop(s.events[e], s'.events[e])
    ensures SameLoops(s, s')
  {}

  lemma LockTaken(s: State, s': State, e: nat)
    requires LocksOk(s) && e < |s.events| && |s'.events| == |s.events| && s'.events == s.events[e := s'.events[e]]
    requires s.events[e].list !in s.locks && s'.locks == s.locks[s.events[e].list := e] && s'.lists == s.lists
    requires s.events[e].handler.Locking? && s'.events[e].list == s.events[e].list && InLoop(s'.events[e].handler)
    ensures LocksOk(s')
  {
    forall k | k in s'.locks ensures LockOk(s', k) {
      if k in s.locks {
        assert LockOk(s, k);
        assert s.locks[k] != e;
      }
    }
    forall d | 0 <= d < |s'.events| ensures HoldsOk(s', d) {
      assert HoldsOk(s, d);
    }
  }

  lemma LockReleased(s: State, s': State, e: nat)
    requires LocksOk(s) && e < |s.events| && |s'.events| == |s.events| && s'.events == s.events[e := s'.events[e]]
    requires InLoop(s.events[e].handler) && s'.locks == s.locks - {s.events[e].list} && s'.lists == s.lists
    requires s'.events[e].list == s.events[e].list && s'.events[e].handler.Joining?
    ensures LocksOk(s')
  {
    assert HoldsOk(s, e);
    forall k | k in s'.locks ensures LockOk(s', k) {
      assert LockOk(s, k);
    }
    forall d | 0 <= d < |s'.events| ensures HoldsOk(s', d) {
      assert HoldsOk(s, d);
    }
  }

  lemma HandleKeepsLocks(s: State, e: nat, listeners: seq<Entry>)
    requires LocksOk(s) && Can(s, Handle(e, listeners))
    ensures LocksOk(DoHandle(s, e, listeners))
  {
    var s', ev := DoHandle(s, e, listeners), s.events[e];
    if ev.handler.Locking? {
      LockTaken(s, s', e);
    } else if ev.handler == Looping([]) {
      LockReleased(s, s', e);
    } else if ev.handler.Looking? {
      LookedUp(s, s', e);
    } else {
      OneKeepsLoops(s, s', e);
      SameLoopsKeepLocks(s, s');
    }
  }

  lemma LookedUp(s: State, s': State, e: nat)
    requires LocksOk(s) && OneChanges(s, s', e) && s.events[e].handler.Looking?
    requires s'.events[e].list == s.events[e].list
    requires s'.events[e].handler == if s.events[e].list in s.lists then Locking else Freeing
    ensures LocksOk(s')
  {
    forall k | k in s'.locks ensures LockOk(s', k) {
      assert LockOk(s, k);
    }
    forall d | 0 <= d < |s'.events| ensures HoldsOk(s', d) {
      assert HoldsOk(s, d);
    }
  }

  lemma CheckKeepsLoops(s: State, blocking: bool, hasFree: bool, list: nat)
    ensures SameLoops(s, DoCheck(s, blocking, hasFree, list))
  {}

  lemma OtherStepsKeepLoops(s: State, a: Action)
    requires Core(s) && Can(s, a) && !a.Handle? && !a.PostFrom?
    ensures SameLoops(s, Do(s, a))
  {
    match a
    case Check(blocking, hasFree, list) => CheckKeepsLoops(s, blocking, hasFree, list);
    case AskFor(l, _) => OneKeepsLoops(s, Do(s, a), l.e);
    case AddList(_) =>
    case Insert(e) => OneKeepsLoops(s, Do(s, a), e);
    case Signal(e) => OneKeepsLoops(s, Do(s, a), e);
    case Await(e) => OneKeepsLoops(s, Do(s, a), e);
    case Loop =>
      if s.loop.Moved? {
        MovedIsNew(s);
        OneKeepsLoops(s, Do(s, a), s.loop.event);
      }
    case ListenerEnds(e, _) => OneKeepsLoops(s, Do(s, a), e);
  }

  lemma DoKeepsLocks(s: State, a: Action)
    requires Core(s) && LocksOk(s) && Can(s, a)
    ensures LocksOk(Do(s, a))
  {
    if a.Handle? {
      HandleKeepsLocks(s, a.e, a.listeners);
    } else if a.PostFrom? {
      var s1 := DoCheck(s, true, a.hasFree, a.list);
      CheckKeepsLoops(s, true, a.hasFree, a.list);
      SameLoopsKeepLocks(s, s1);
      OneKeepsLoops(s1, Do(s, a), a.l.e);
      SameLoopsKeepLocks(s1, Do(s, a));
    } else {
      OtherStepsKeepLoops(s, a);
      SameLoopsKeepLocks(s, Do(s, a));
    }
  }

  /** Every listener of an event after a step was one before it, with the same wait, or does not
      wait for a post. */
  predicate WaitsKept(ev: Event, ev': Event) {
    && ev'.blocking == ev.blocking
    && (ev'.handler.Calling? && ev'.handler.wait.ForPost? ==>
          ev.handler.Calling? && ev.handler.wait == ev'.handler.wait)
    && (forall t :: t in ev'.threads && ev'.threads[t].ForPost? ==> t in ev.threads && ev.threads[t] == ev'.threads[t])
  }

  lemma OneKeepsWaits(s: State, s': State, e: nat)
    requires WaitsOk(s) && e < |s.events| && |s'.events| == |s.events| && s'.events == s.events[e := s'.events[e]]
    requires WaitsKept(s.events[e], s'.events[e])
    ensures WaitsOk(s')
  {
    forall l | IsListener(s', l) ensures WaitOk(s'.events, l.e, WaitOf(s', l)) {
      if WaitOf(s', l).ForPost? {
        assert IsListener(s, l) && WaitOf(s, l) == WaitOf(s', l);
        assert WaitOk(s.events, l.e, WaitOf(s, l));
      }
    }
  }

  lemma StepKeepsWaits(ev: Event, found: bool, listeners: seq<Entry>)
    ensures WaitsKept(ev, StepHandler(ev, found, listeners))
  {}

  lemma CheckKeepsWaits(s: State, blocking: bool, hasFree: bool, list: nat)
    requires WaitsOk(s)
    ensures WaitsOk(DoCheck(s, blocking, hasFree, list))
  {
    var s' := DoCheck(s, blocking, hasFree, list);
    forall l | IsListener(s', l) ensures WaitOk(s'.events, l.e, WaitOf(s', l)) {
      assert IsListener(s, l) && WaitOf(s, l) == WaitOf(s', l);
      assert WaitOk(s.events, l.e, WaitOf(s, l));
    }
  }

  /** One listener begins to wait for a blocking event. */
  lemma PostKeepsWaits(s: State, l: Listener, f: nat)
    requires WaitsOk(s) && IsListener(s, l) && l.e < f < |s.events| && s.events[f].blocking
    ensures WaitsOk(SetWait(s, l, ForPost(f)))
  {
    var s' := SetWait(s, l, ForPost(f));
    forall m | IsListener(s', m) ensures WaitOk(s'.events, m.e, WaitOf(s', m)) {
      if m != l {
        assert IsListener(s, m) && WaitOf(s, m) == WaitOf(s', m);
        assert WaitOk(s.events, m.e, WaitOf(s, m));
      }
    }
  }

  lemma DoKeepsWaits(s: State, a: Action)
    requires Core(s) && WaitsOk(s) && Can(s, a)
    ensures WaitsOk(Do(s, a))
  {
    match a
    case Check(blocking, hasFree, list) => CheckKeepsWaits(s, blocking, hasFree, list);
    case PostFrom(l, hasFree, list) =>
      CheckKeepsWaits(s, true, hasFree, list);
      PostKeepsWaits(DoCheck(s, true, hasFree, list), l, |s.events|);
    case AskFor(l, _) => OneKeepsWaits(s, Do(s, a), l.e);
    case AddList(_) => SameEventsKeepWaits(s, Do(s, a));
    case Insert(e) => OneKeepsWaits(s, Do(s, a), e);
    case Signal(e) => OneKeepsWaits(s, Do(s, a), e);
    case Await(e) => OneKeepsWaits(s, Do(s, a), e);
    case Loop =>
      if s.loop.Moved? { OneKeepsWaits(s, Do(s, a), s.loop.event); } else { SameEventsKeepWaits(s, Do(s, a)); }
    case Handle(e, listeners) =>
      StepKeepsWaits(s.events[e], s.events[e].list in s.lists, listeners);
      OneKeepsWaits(s, Do(s, a), e);
    case ListenerEnds(e, _) => OneKeepsWaits(s, Do(s, a), e);
  }

  lemma SameEventsKeepWaits(s: State, s': State)
    requires WaitsOk(s) && s'.events == s.events
    ensures WaitsOk(s')
  {
    forall l | IsListener(s', l) ensures WaitOk(s'.events, l.e, WaitOf(s', l)) {
      assert IsListener(s, l) && WaitOf(s, l) == WaitOf(s', l);
      assert WaitOk(s.events, l.e, WaitOf(s, l));
    }
  }

  lemma DoKeepsInv(s: State, a: Action)
    requires Inv(s) && Can(s, a)
    requires Outstanding(s) < EVENT_MAX_EVENTS && Outstanding(Do(s, a)) < EVENT_MAX_EVENTS
    ensures Inv(Do(s, a))
  {
    DoKeepsCore(s, a);
    DoKeepsLocks(s, a);
    DoKeepsWaits(s, a);
  }

  lemma {:induction false} RunKeepsInv(r: seq<State>, i: nat)
    requires Run(r) && i < |r|
    ensures Inv(r[i])
    decreases i
  {
    if i > 0 {
      RunKeepsInv(r, i - 1);
      assert Step(r[i - 1], r[i - 1 + 1]);
      StepKeepsInv(r[i - 1], r[i]);
    } else {
      InitHolds(r[0]);
    }
  }

  lemma StepKeepsInv(s: State, s': State)
    requires Inv(s) && Step(s, s') && Outstanding(s) < EVENT_MAX_EVENTS && Outstanding(s') < EVENT_MAX_EVENTS
    ensures Inv(s')
  {
    var a :| Can(s, a) && s' == Do(s, a);
    DoKeepsInv(s, a);
  }

  lemma InitHolds(s: State)
    requires Init(s)
    ensures Inv(s)
  {
    assert At(s, Inserted) == {};
  }

  // ---- what the invariant gives ---------------------------------------------------------------

  /** The event that a step changes, if any. */
  function Subject(s: State, a: Action): Option<nat> {
    match a
    case Check(_, _, _) => None
    case PostFrom(l, _, _) => Some(l.e)
    case AskFor(l, _) => Some(l.e)
    case AddList(_) => None
    case Insert(e) => Some(e)
    case Signal(e) => Some(e)
    case Await(e) => Some(e)
    case Loop => if s.loop.Moved? then Some(s.loop.event) else None
    case Handle(e, _) => Some(e)
    case ListenerEnds(e, _) => Some(e)
  }

  lemma OthersStay(s: State, a: Action, e: nat)
    requires Can(s, a) && e < |s.events| && Subject(s, a) != Some(e)
    ensures e < |Do(s, a).events| && Do(s, a).events[e] == s.events[e]
  {
    match a
    case PostFrom(l, _, _) =>
    case Handle(_, _) =>
    case _ =>
  }

  /** Handler threads are started in the order in which the events were put into the ring,
      one for each event; no assertion fails and no freed record is used. */
  lemma DispatchedInPostOrder(r: seq<State>, i: nat)
    requires Run(r) && i < |r|
    ensures !r[i].failed
    ensures r[i].dispatched <= r[i].posted && Distinct(r[i].posted)
    ensures r[i].posted == Taken(r[i]) + InRing(r[i])
  {
    RunKeepsInv(r, i);
    OrderGives(r[i]);
  }

  lemma OrderGives(s: State)
    requires OrderOk(s)
    ensures s.dispatched <= s.posted && Distinct(s.posted) && s.posted == Taken(s) + InRing(s)
  {
    assert s.dispatched <= Taken(s);
  }

  /** What is asserted in a step (314, 559, 747), that a record in use has not been freed, and that
      an event gets one handler. */
  predicate Asserted(s: State, a: Action)
    requires Can(s, a)
  {
    match a
    case Check(_, _, _) => Next(s.back) != s.front
    case PostFrom(_, _, _) => Next(s.back) != s.front
    case Insert(e) => s.events[e].recordFrees == 0
    case Await(e) => s.events[e].blocking ==> s.events[e].recordFrees == 0
    case Loop =>
      && (s.loop.GotToken? ==> s.front != s.back)
      && (s.loop.Moved? ==> s.events[s.loop.event].handler == NotStarted)
    case Handle(e, _) =>
      && (Touches(s.events[e].handler) ==> s.events[e].recordFrees == 0)
      && (StartsThread(s.events[e]) ==> s.events[e].started < LLIST_NO_ELEMS)
    case _ => true
  }

  /** A step fails exactly if one of these does not hold. */
  lemma StepFailsIff(s: State, a: Action)
    requires Can(s, a)
    ensures Do(s, a).failed <==> s.failed || !Asserted(s, a)
  {
    match a
    case PostFrom(_, _, _) =>
    case Handle(_, _) =>
    case Loop =>
    case _ =>
  }

  /** The free function runs at most once, and only when all listeners have been served and have
      returned; the record is freed at most once, by the poster if the post was blocking and by
      the handler otherwise; and a blocking post returns only when its handler has ended. */
  lemma EventLifeCycle(r: seq<State>, i: nat, e: nat)
    requires Run(r) && i < |r| && e < |r[i].events|
    ensures var ev := r[i].events[e];
            && ev.freeCalls <= 1 && ev.recordFrees <= 1
            && (ev.freeCalls == 1 || ev.handler in {Freeing, Finishing, Ended} ==>
                  ev.threads == map[] && ev.served == ev.listeners && ev.ended == ev.started == Threads(ev.listeners))
            && (ev.handler == Ended ==> ev.freeCalls == (if ev.hasFree then 1 else 0))
            && (ev.recordFrees == 1 <==> if ev.blocking then ev.poster == Returned else ev.handler == Ended)
            && (ev.blocking && ev.poster == Returned ==> ev.handler == Ended)
  {
    RunKeepsInv(r, i);
    assert EventOk(r[i].events[e]);
  }

  /** A handler goes through the list if there is one, and through what it finds in it when it has
      locked it. */
  lemma ListFound(s: State, e: nat, listeners: seq<Entry>)
    requires Can(s, Handle(e, listeners))
    ensures s.events[e].handler.Looking? ==>
              (DoHandle(s, e, listeners).events[e].handler.Locking? <==> s.events[e].list in s.lists)
    ensures s.events[e].handler.Locking? ==> DoHandle(s, e, listeners).events[e].listeners == listeners
  {}

  /** No step changes it afterwards. */
  lemma ListKept(s: State, a: Action, e: nat)
    requires Inv(s) && Can(s, a) && e < |s.events| && !BeforeLock(s.events[e].handler)
    ensures e < |Do(s, a).events| && Do(s, a).events[e].listeners == s.events[e].listeners
    ensures !BeforeLock(Do(s, a).events[e].handler) && s.events[e].served <= Do(s, a).events[e].served
  {
    if Subject(s, a) != Some(e) {
      OthersStay(s, a, e);
    } else if a.Loop? {
      MovedIsNew(s);
    } else {
      match a
      case PostFrom(l, _, _) => WaitKeepsList(s.events[e], l, ForPost(|s.events|));
      case AskFor(l, k) => WaitKeepsList(s.events[e], l, ForLock(k));
      case Handle(_, listeners) => StepKeepsList(s.events[e], s.events[e].list in s.lists, listeners);
      case _ =>
    }
  }

  lemma WaitKeepsList(ev: Event, l: Listener, w: Wait)
    ensures Waiting(ev, l, w).listeners == ev.listeners && Waiting(ev, l, w).served == ev.served
    ensures BeforeLock(Waiting(ev, l, w).handler) == BeforeLock(ev.handler)
  {}

  lemma StepKeepsList(ev: Event, found: bool, listeners: seq<Entry>)
    requires !BeforeLock(ev.handler)
    ensures var ev' := StepHandler(ev, found, listeners);
            ev'.listeners == ev.listeners && ev.served <= ev'.served && !BeforeLock(ev'.handler)
  {}

  /** In every run the listeners found in the list are called, or get a thread, one after the
      other and each once: what has been served is at any time a beginning of the list, and when
      the handler has left its loop, or a blocking post has returned, it is the whole list. */
  lemma ListenersServed(r: seq<State>, i: nat, e: nat)
    requires Run(r) && i < |r| && e < |r[i].events|
    ensures var ev := r[i].events[e];
            && ev.served <= ev.listeners && ev.started == Threads(ev.served)
            && (ev.handler.Calling? ==> ev.served + [ev.handler.now] <= ev.listeners)
            && (ev.handler in {Joining, Freeing, Finishing, Ended} ==> ev.served == ev.listeners)
            && (ev.blocking && ev.poster == Returned ==> ev.served == ev.listeners)
  {
    RunKeepsInv(r, i);
    assert EventOk(r[i].events[e]);
  }

  /** At most one handler goes through a listener list at a time. */
  lemma OneHandlerPerList(r: seq<State>, i: nat, d: nat, e: nat)
    requires Run(r) && i < |r| && d < |r[i].events| && e < |r[i].events|
    requires InLoop(r[i].events[d].handler) && InLoop(r[i].events[e].handler)
             && r[i].events[d].list == r[i].events[e].list
    ensures d == e
  {
    RunKeepsInv(r, i);
    assert HoldsOk(r[i], d) && HoldsOk(r[i], e);
  }

  /** The main loop can always step, unless it waits for a token that is not there. */
  lemma LoopReady(s: State)
    requires Inv(s)
    ensures Can(s, Loop) || (s.loop.AtWait? && s.sem == 0)
  {
    if s.loop.Moved? { MovedIsNew(s); }
  }

  /** How far the event that was posted as number k is from its dispatch: steps of the main loop
      still to come, and whether the loop has to wait for a token first. */
  datatype Distance = Distance(steps: nat, waits: nat)

  predicate Nearer(d: Distance, d': Distance) { d.steps < d'.steps || (d.steps == d'.steps && d.waits < d'.waits) }

  function ToDispatch(s: State, k: nat): Distance
    requires |s.dispatched| <= k
  {
    Distance(4 * (k - |s.dispatched|) +
               (match s.loop case AtWait => 4 case GotToken => 3 case Read(_) => 2 case Moved(_) => 1),
             if s.loop.AtWait? && s.sem == 0 then 1 else 0)
  }

  /** The step that brings a posted event nearer to its dispatch: of the main loop, or if that
      has to wait, of a poster. */
  lemma DispatchAdvances(s: State, k: nat) returns (a: Action)
    requires Inv(s) && |s.dispatched| <= k < |s.posted|
    ensures Can(s, a) && (a.Loop? || a.Signal?)
    ensures k < |Do(s, a).dispatched| || Nearer(ToDispatch(Do(s, a), k), ToDispatch(s, k))
  {
    LoopReady(s);
    if Can(s, Loop) {
      a := Loop;
    } else {
      assert InRing(s) == s.posted[|s.dispatched|..];
      assert |At(s, Inserted)| > 0;
      var e :| e in At(s, Inserted);
      a := Signal(e);
    }
  }

  /** No step takes it further away. */
  lemma DispatchNeverSetBack(s: State, a: Action, k: nat)
    requires Inv(s) && Can(s, a) && |s.dispatched| <= k < |s.posted|
    ensures var s' := Do(s, a);
            k < |s'.dispatched| || ToDispatch(s', k) == ToDispatch(s, k) || Nearer(ToDispatch(s', k), ToDispatch(s, k))
    ensures s.posted <= Do(s, a).posted
  {
    if !a.Loop? { OffTheRing(s, a); }
  }

  /** Only the main loop takes events and tokens. */
  lemma OffTheRing(s: State, a: Action)
    requires Can(s, a) && !a.Loop?
    ensures var s' := Do(s, a);
            s'.dispatched == s.dispatched && s'.loop == s.loop && s'.sem >= s.sem && s.posted <= s'.posted
  {
    match a
    case PostFrom(_, _, _) =>
    case Handle(_, _) =>
    case _ =>
  }

  // ---- the check for a free slot ---------------------------------------------------------------

  /** The check is made before the lock is taken. Putting an event into the ring keeps it
      intact exactly if the check still holds at that moment. */
  lemma InsertSafeIffCheckHolds(slots: seq<nat>, front: nat, back: nat, q: seq<nat>, e: nat)
    requires RingOk(slots, front, back, q)
    ensures RingOk(slots[back := e], front, Next(back), q + [e]) <==> Next(back) != front
  {
    if |q| + 1 < EVENT_MAX_EVENTS {
      RingInsert(slots, front, back, q, e);
    }
  }

  // ---- two posters can overrun the ring --------------------------------------------------------

  /** A run without the bound on outstanding events. */
  ghost predicate AnyRun(r: seq<State>) {
    |r| > 0 && Init(r[0]) && forall i :: 0 <= i < |r| - 1 ==> Step(r[i], r[i + 1])
  }

  lemma Extend(r: seq<State>, a: Action) returns (r': seq<State>)
    requires AnyRun(r) && Can(r[|r| - 1], a)
    ensures AnyRun(r') && r'[|r'| - 1] == Do(r[|r| - 1], a)
  {
    r' := r + [Do(r[|r| - 1], a)];
    forall i | 0 <= i < |r'| - 1 ensures Step(r'[i], r'[i + 1]) {
      if i < |r| - 1 { assert Step(r[i], r[i + 1]); }
    }
  }

  /** n events have been put into the ring and none taken out; m posters are past the check. */
  ghost predicate Posted(s: State, n: nat, m: nat) {
    && |s.slots| == EVENT_MAX_EVENTS && s.front == 0 && s.back == n % EVENT_MAX_EVENTS
    && s.loop == AtWait && s.dispatched == [] && |s.posted| == n && !s.failed && |s.events| == n + m
    && (forall e :: n <= e < n + m ==> s.events[e].poster == Checked && s.events[e].recordFrees == 0)
  }

  lemma PostsCheck(s: State, n: nat, m: nat)
    requires Posted(s, n, m) && n < EVENT_MAX_EVENTS - 1
    ensures Posted(Do(s, Check(false, false, 0)), n, m + 1)
  {}

  lemma PostsInsert(s: State, n: nat, m: nat)
    requires Posted(s, n, m) && m > 0
    ensures Can(s, Insert(n)) && Posted(Do(s, Insert(n)), n + 1, m - 1)
  {}

  lemma {:induction false} FillRing(n: nat) returns (r: seq<State>)
    requires n <= EVENT_MAX_EVENTS - 2
    ensures AnyRun(r) && Posted(r[|r| - 1], n, 0)
  {
    if n == 0 {
      r := [State(seq(EVENT_MAX_EVENTS, _ => 0), 0, 0, 0, AtWait, [], [], [], {}, map[], false)];
    } else {
      r := FillRing(n - 1);
      PostsCheck(r[|r| - 1], n - 1, 0);
      r := Extend(r, Check(false, false, 0));
      PostsInsert(r[|r| - 1], n - 1, 1);
      r := Extend(r, Insert(n - 1));
    }
  }

  /** The check is made before the lock is taken, so that without the bound on outstanding events
      two posters can both pass it when 254 events are in the ring. There is a run in which they
      do, no assertion fails, and with 256 events in it the ring looks empty. */
  lemma CheckCanBeOvertaken() returns (r: seq<State>)
    ensures AnyRun(r)
    ensures var s := r[|r| - 1]; !s.failed && s.front == s.back && |InRing(s)| == EVENT_MAX_EVENTS
  {
    var n := EVENT_MAX_EVENTS - 2;
    r := FillRing(n);
    PostsCheck(r[|r| - 1], n, 0);
    r := Extend(r, Check(false, false, 0));
    PostsCheck(r[|r| - 1], n, 1);
    r := Extend(r, Check(false, false, 0));
    PostsInsert(r[|r| - 1], n, 2);
    r := Extend(r, Insert(n));
    PostsInsert(r[|r| - 1], n + 1, 1);
    r := Extend(r, Insert(n + 1));
  }
}
