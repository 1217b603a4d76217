/**
  When events get finished. Handlers wait for the locks of listener lists, for the listeners they
  call and for the threads they have started; listeners wait for the blocking events they post
  and for locks. An event can be finished exactly if it is not caught in a circle of such waits.
 */
module EventProgress {
  import opened Wrappers
  import opened Sequences
  import opened EventQueue

  // ---- who waits for what -----------------------------------------------------------------------

  /** What is waited for: that the handler of an event leaves its loop, and with it gives up the
      lock of its list; or that an event is finished. */
  datatype Goal = Leave(e: nat) | End(e: nat)

  /** What a listener waits for, if its wait is not over. */
  function NeedOf(s: State, l: Listener): Option<Goal>
    requires IsListener(s, l)
  {
    if Over(s, l) then None
    else match WaitOf(s, l)
      case ForPost(f) => Some(End(f))
      case ForLock(k) => Some(Leave(s.locks[k]))
  }

  /** The handler of the event needs a lock, now or later, that another handler holds. */
  predicate NeedsLock(s: State, e: nat, g: Goal)
    requires e < |s.events|
  {
    var ev := s.events[e];
    BeforeLock(ev.handler) && ev.list in s.lists && ev.list in s.locks && g == Leave(s.locks[ev.list])
  }

  ghost predicate ListenerNeeds(s: State, l: Listener, g: Goal) { IsListener(s, l) && NeedOf(s, l) == Some(g) }

  /** Nothing of the first kind happens before the second has. */
  ghost predicate Needs(s: State, g: Goal, g': Goal) {
    && g.e < |s.events|
    && match g
       case Leave(e) => ListenerNeeds(s, Inline(e), g')
       case End(e) => NeedsLock(s, e, g') || exists l: Listener :: l.e == e && ListenerNeeds(s, l, g')
  }

  ghost predicate Path(s: State, p: seq<Goal>) { forall i :: 0 <= i < |p| - 1 ==> Needs(s, p[i], p[i + 1]) }

  /** A path that comes back to a goal it has passed. */
  ghost predicate Circle(s: State, p: seq<Goal>) {
    |p| >= 2 && Path(s, p) && p[|p| - 1] in p[..|p| - 1]
  }

  /** The waits that start from a goal lead into a circle. */
  ghost predicate Deadlocked(s: State, g: Goal) { exists p :: Circle(s, p) && p[0] == g }

  predicate Finished(ev: Event) { ev.handler.Ended? && (ev.blocking ==> ev.poster == Returned) }

  predicate Open(s: State, g: Goal) {
    && g.e < |s.events|
    && match g
       case Leave(e) => InLoop(s.events[e].handler)
       case End(e) => !Finished(s.events[e])
  }

  lemma ListenerNeedsOpen(s: State, l: Listener, g: Goal)
    requires Inv(s) && ListenerNeeds(s, l, g)
    ensures Open(s, g) && !s.events[l.e].handler.Ended? && (l.Inline? ==> InLoop(s.events[l.e].handler))
  {
    assert EventOk(s.events[l.e]);
    assert WaitOk(s.events, l.e, WaitOf(s, l));
    if WaitOf(s, l).ForLock? { assert LockOk(s, WaitOf(s, l).list); }
  }

  /** What is needed has not happened, nor has what needs it. */
  lemma NeedsOpen(s: State, g: Goal, g': Goal)
    requires Inv(s) && Needs(s, g, g')
    ensures Open(s, g) && Open(s, g')
    ensures g.End? ==> !s.events[g.e].handler.Ended?
  {
    match g
    case Leave(e) => ListenerNeedsOpen(s, Inline(e), g');
    case End(e) =>
      if NeedsLock(s, e, g') {
        assert LockOk(s, s.events[e].list);
      } else {
        var l: Listener :| l.e == e && ListenerNeeds(s, l, g');
        ListenerNeedsOpen(s, l, g');
      }
  }

  /** A listener that asks for the lock of a list waits for the handler that holds it, unless that is
      the one that called it. */
  lemma AskForNeeds(s: State, l: Listener, k: nat)
    requires Inv(s) && Can(s, AskFor(l, k))
    ensures var s' := Do(s, AskFor(l, k));
            && IsListener(s', l) && WaitOf(s', l) == ForLock(k)
            && (k in s.locks && l != Inline(s.locks[k]) ==> ListenerNeeds(s', l, Leave(s.locks[k])))
            && (k !in s.locks || l == Inline(s.locks[k]) ==> Over(s', l))
  {}

  /** A handler that cannot step waits for its own listener threads, for the lock of its list,
      whose holder is in its loop, or for the listener it is calling, which waits itself. */
  lemma HandlerWaits(s: State, e: nat)
    requires Inv(s) && e < |s.events| && s.events[e].handler !in {NotStarted, Ended} && !Can(s, Handle(e, []))
    ensures var ev := s.events[e];
            || (ev.handler.Joining? && ev.threads != map[])
            || (ev.handler.Locking? && ev.list in s.locks && Open(s, Leave(s.locks[ev.list])))
            || (ev.handler.Calling? && !Over(s, Inline(e)))
  {
    if s.events[e].handler.Locking? { assert LockOk(s, s.events[e].list); }
  }

  // ---- a circle stays -----------------------------------------------------------------------------

  /** A blocking post whose event has not ended does not return. */
  lemma PostStays(s: State, a: Action, f: nat)
    requires Can(s, a) && f < |s.events| && EventOk(s.events[f])
    requires s.events[f].blocking && s.events[f].poster != Returned && !s.events[f].handler.Ended?
    ensures f < |Do(s, a).events| && Do(s, a).events[f].poster != Returned
  {
    if Subject(s, a) != Some(f) {
      OthersStay(s, a, f);
    } else {
      match a
      case PostFrom(l, _, _) =>
      case AskFor(l, _) =>
      case Handle(_, _) =>
      case _ =>
    }
  }

  /** A handler whose listener waits does not move. */
  lemma CallerStays(s: State, a: Action, e: nat)
    requires Core(s) && Can(s, a) && IsListener(s, Inline(e)) && !Over(s, Inline(e))
    ensures e < |Do(s, a).events| && Do(s, a).events[e].handler == s.events[e].handler
    ensures Do(s, a).events[e].list == s.events[e].list
  {
    if Subject(s, a) != Some(e) {
      OthersStay(s, a, e);
    } else if a.Loop? {
      MovedIsNew(s);
    } else {
      match a
      case PostFrom(l, _, _) =>
      case AskFor(l, _) =>
      case _ =>
    }
  }

  /** A listener thread that waits does not move. */
  lemma ThreadStays(s: State, a: Action, e: nat, t: nat)
    requires Can(s, a) && IsListener(s, InThread(e, t)) && !Over(s, InThread(e, t)) && EventOk(s.events[e])
    ensures IsListener(Do(s, a), InThread(e, t)) && WaitOf(Do(s, a), InThread(e, t)) == WaitOf(s, InThread(e, t))
  {
    if Subject(s, a) != Some(e) {
      OthersStay(s, a, e);
    } else {
      match a
      case PostFrom(l, _, _) => WaitLeavesThread(s.events[e], l, ForPost(|s.events|), e, t);
      case AskFor(l, k) => WaitLeavesThread(s.events[e], l, ForLock(k), e, t);
      case Handle(_, listeners) => StepLeavesThread(s.events[e], s.events[e].list in s.lists, listeners, t);
      case _ =>
    }
  }

  lemma WaitLeavesThread(ev: Event, l: Listener, w: Wait, e: nat, t: nat)
    requires t in ev.threads && l != InThread(e, t) && l.e == e
    ensures t in Waiting(ev, l, w).threads && Waiting(ev, l, w).threads[t] == ev.threads[t]
  {}

  lemma StepLeavesThread(ev: Event, found: bool, listeners: seq<Entry>, t: nat)
    requires t in ev.threads && t < ev.started
    ensures t in StepHandler(ev, found, listeners).threads
    ensures StepHandler(ev, found, listeners).threads[t] == ev.threads[t]
  {}

  lemma HandleLeavesLock(s: State, e: nat, listeners: seq<Entry>, h: nat, k: nat)
    requires LocksOk(s) && Can(s, Handle(e, listeners)) && k in s.locks && s.locks[k] == h
    requires h < |s.events| && s.events[h].handler.Calling?
    ensures k in DoHandle(s, e, listeners).locks && DoHandle(s, e, listeners).locks[k] == h
  {
    assert HoldsOk(s, e) && LockOk(s, k);
  }

  /** A lock whose holder's listener waits is not given up. */
  lemma LockStays(s: State, a: Action, h: nat, k: nat)
    requires Inv(s) && Can(s, a) && k in s.locks && s.locks[k] == h
    requires IsListener(s, Inline(h)) && !Over(s, Inline(h))
    ensures k in Do(s, a).locks && Do(s, a).locks[k] == h
  {
    match a
    case Handle(e, listeners) => HandleLeavesLock(s, e, listeners, h, k);
    case PostFrom(_, _, _) =>
    case _ =>
  }

  /** A listener that goes on waiting for the same post, which has not returned. */
  lemma PostNeedStays(s: State, s': State, l: Listener, f: nat)
    requires ListenerNeeds(s, l, End(f)) && WaitOf(s, l) == ForPost(f)
    requires IsListener(s', l) && WaitOf(s', l) == WaitOf(s, l)
    requires f < |s'.events| && s'.events[f].poster != Returned
    ensures ListenerNeeds(s', l, End(f))
  {}

  /** A listener that goes on waiting for the same lock, which has the same holder. */
  lemma LockNeedStays(s: State, s': State, l: Listener, k: nat)
    requires IsListener(s, l) && WaitOf(s, l) == ForLock(k) && !Over(s, l)
    requires IsListener(s', l) && WaitOf(s', l) == WaitOf(s, l)
    requires k in s.locks && k in s'.locks && s'.locks[k] == s.locks[k]
    ensures ListenerNeeds(s', l, Leave(s.locks[k]))
  {}

  lemma ListenerStays(s: State, a: Action, l: Listener)
    requires Core(s) && Can(s, a) && IsListener(s, l) && !Over(s, l)
    ensures IsListener(Do(s, a), l) && WaitOf(Do(s, a), l) == WaitOf(s, l)
  {
    assert EventOk(s.events[l.e]);
    match l
    case Inline(e) => CallerStays(s, a, e);
    case InThread(e, t) => ThreadStays(s, a, e, t);
  }

  lemma ListenerNeedStays(s: State, a: Action, l: Listener, g: Goal, g': Goal)
    requires Inv(s) && Can(s, a) && ListenerNeeds(s, l, g) && Needs(s, g, g')
    ensures ListenerNeeds(Do(s, a), l, g)
  {
    ListenerStays(s, a, l);
    match WaitOf(s, l)
    case ForPost(f) => PostStaysNeeded(s, a, l, f, g');
    case ForLock(k) =>
      LockStays(s, a, s.locks[k], k);
      LockNeedStays(s, Do(s, a), l, k);
  }

  lemma PostStaysNeeded(s: State, a: Action, l: Listener, f: nat, g: Goal)
    requires Inv(s) && Can(s, a) && ListenerNeeds(s, l, End(f)) && Needs(s, End(f), g)
    requires WaitOf(s, l) == ForPost(f) && IsListener(Do(s, a), l) && WaitOf(Do(s, a), l) == WaitOf(s, l)
    ensures ListenerNeeds(Do(s, a), l, End(f))
  {
    NeedsOpen(s, End(f), g);
    assert WaitOk(s.events, l.e, WaitOf(s, l)) && EventOk(s.events[f]);
    PostStays(s, a, f);
    PostNeedStays(s, Do(s, a), l, f);
  }

  lemma WaitLeavesHandler(ev: Event, l: Listener, w: Wait)
    requires !ev.handler.Calling?
    ensures Waiting(ev, l, w).handler == ev.handler && Waiting(ev, l, w).list == ev.list
  {}

  lemma BeforeLockStays(s: State, a: Action, e: nat)
    requires Can(s, a) && e < |s.events| && BeforeLock(s.events[e].handler)
    requires s.events[e].list in s.lists && s.events[e].list in s.locks
    ensures e < |Do(s, a).events| && BeforeLock(Do(s, a).events[e].handler)
    ensures Do(s, a).events[e].list == s.events[e].list
  {
    if Subject(s, a) != Some(e) {
      OthersStay(s, a, e);
    } else {
      match a
      case PostFrom(l, _, _) => WaitLeavesHandler(s.events[e], l, ForPost(|s.events|));
      case AskFor(l, k) => WaitLeavesHandler(s.events[e], l, ForLock(k));
      case _ =>
    }
  }

  lemma ListsStay(s: State, a: Action)
    requires Can(s, a)
    ensures s.lists <= Do(s, a).lists
  {}

  lemma NeedStays(s: State, a: Action, g: Goal, g': Goal, g'': Goal)
    requires Inv(s) && Can(s, a) && Needs(s, g, g') && Needs(s, g', g'')
    ensures Needs(Do(s, a), g, g')
  {
    match g
    case Leave(e) => ListenerNeedStays(s, a, Inline(e), g', g'');
    case End(e) =>
      if NeedsLock(s, e, g') {
        BeforeLockStays(s, a, e);
        ListsStay(s, a);
        LockStays(s, a, g'.e, s.events[e].list);
      } else {
        var l: Listener :| l.e == e && ListenerNeeds(s, l, g');
        ListenerNeedStays(s, a, l, g', g'');
      }
  }

  /** In a circle every goal, also the last one, needs another. */
  lemma NextInCircle(s: State, p: seq<Goal>, i: nat) returns (g: Goal)
    requires Circle(s, p) && i < |p|
    ensures Needs(s, p[i], g)
  {
    if i < |p| - 1 {
      g := p[i + 1];
    } else {
      var j :| 0 <= j < |p| - 1 && p[j] == p[|p| - 1];
      g := p[j + 1];
    }
  }

  /** No step breaks a circle of waits. */
  lemma CircleStays(s: State, a: Action, p: seq<Goal>)
    requires Inv(s) && Can(s, a) && Circle(s, p)
    ensures Circle(Do(s, a), p)
  {
    forall i | 0 <= i < |p| - 1 ensures Needs(Do(s, a), p[i], p[i + 1]) {
      var g := NextInCircle(s, p, i + 1);
      NeedStays(s, a, p[i], p[i + 1], g);
    }
  }

  // ---- what is left to do ---------------------------------------------------------------------------

  function PosterLeft(p: Poster): nat {
    match p
    case Checked => 3
    case Inserted => 2
    case Signalled => 1
    case Returned => 0
  }

  function HandlerLeft(ev: Event): nat {
    match ev.handler
    case NotStarted => 3 * LLIST_NO_ELEMS + 12
    case Looking => 3 * LLIST_NO_ELEMS + 8
    case Locking => 3 * LLIST_NO_ELEMS + 6
    case Looping(todo) => 3 * |todo| + |ev.threads| + 4
    case Calling(_, todo, _) => 3 * |todo| + |ev.threads| + 5
    case Joining => |ev.threads| + 3
    case Freeing => 2
    case Finishing => 1
    case Ended => 0
  }

  function EventLeft(ev: Event): nat { PosterLeft(ev.poster) + HandlerLeft(ev) }

  function Total(events: seq<Event>): nat {
    if events == [] then 0 else Total(events[..|events| - 1]) + EventLeft(events[|events| - 1])
  }

  function LoopLeft(loop: MainLoop): nat {
    match loop
    case AtWait => 3
    case GotToken => 2
    case Read(_) => 1
    case Moved(_) => 0
  }

  /** The steps that all threads together have before them, if nothing new is posted. */
  function Work(s: State): nat { Total(s.events) + LoopLeft(s.loop) }

  lemma {:induction false} TotalUpdate(events: seq<Event>, e: nat, ev: Event)
    requires e < |events|
    ensures Total(events[e := ev]) == Total(events) - EventLeft(events[e]) + EventLeft(ev)
  {
    var n, events' := |events| - 1, events[e := ev];
    if e < n {
      TotalUpdate(events[..n], e, ev);
      assert events'[..n] == events[..n][e := ev];
    } else {
      assert events'[..n] == events[..n];
    }
  }

  /** Steps of what has been posted, as opposed to new posts and new waits. */
  predicate Ongoing(a: Action) {
    a.Insert? || a.Signal? || a.Await? || a.Loop? || a.Handle? || a.ListenerEnds?
  }

  /** Every step of a handler, whatever the listeners, brings it nearer to its end. */
  lemma StepNearsEnd(ev: Event, found: bool, listeners: seq<Entry>)
    requires ev.handler !in {NotStarted, Ended} && EventOk(ev) && |listeners| <= LLIST_NO_ELEMS
    ensures HandlerLeft(StepHandler(ev, found, listeners)) < HandlerLeft(ev)
  {}

  lemma ThreadEnds(ev: Event, t: nat)
    requires EventOk(ev) && t in ev.threads
    ensures HandlerLeft(Ending(ev, t)) < HandlerLeft(ev)
  {}

  lemma OneShrinks(s: State, s': State, e: nat)
    requires e < |s.events| && |s'.events| == |s.events| && s'.events == s.events[e := s'.events[e]]
    requires EventLeft(s'.events[e]) + LoopLeft(s'.loop) < EventLeft(s.events[e]) + LoopLeft(s.loop)
    ensures Work(s') < Work(s)
  {
    TotalUpdate(s.events, e, s'.events[e]);
  }

  lemma LoopShrinks(s: State)
    requires OrderOk(s) && Can(s, Loop)
    ensures Work(DoLoop(s)) < Work(s)
  {
    if s.loop.Moved? {
      MovedIsNew(s);
      OneShrinks(s, DoLoop(s), s.loop.event);
    }
  }

  lemma HandleShrinks(s: State, e: nat, listeners: seq<Entry>)
    requires Can(s, Handle(e, listeners)) && EventOk(s.events[e])
    ensures Work(DoHandle(s, e, listeners)) < Work(s)
  {
    StepNearsEnd(s.events[e], s.events[e].list in s.lists, listeners);
    StepKeepsEventOk(s.events[e], s.events[e].list in s.lists, listeners);
    OneShrinks(s, DoHandle(s, e, listeners), e);
  }

  lemma ListenerEndsShrinks(s: State, e: nat, t: nat)
    requires Can(s, ListenerEnds(e, t)) && EventOk(s.events[e])
    ensures Work(Do(s, ListenerEnds(e, t))) < Work(s)
  {
    ThreadEnds(s.events[e], t);
    OneShrinks(s, Do(s, ListenerEnds(e, t)), e);
  }

  /** Every ongoing step leaves less to do: without new posts and waits every run comes to rest. */
  lemma WorkShrinks(s: State, a: Action)
    requires Inv(s) && Can(s, a) && Ongoing(a)
    ensures Work(Do(s, a)) < Work(s)
  {
    match a
    case Insert(e) => OneShrinks(s, Do(s, a), e);
    case Signal(e) => OneShrinks(s, Do(s, a), e);
    case Await(e) => OneShrinks(s, Do(s, a), e);
    case Loop => LoopShrinks(s);
    case Handle(e, listeners) =>
      assert EventOk(s.events[e]);
      HandleShrinks(s, e, listeners);
    case ListenerEnds(e, t) =>
      assert EventOk(s.events[e]);
      ListenerEndsShrinks(s, e, t);
  }

  // ---- who does not wait in a circle gets finished ----------------------------------------------------

  ghost predicate NeedsNothing(s: State, g: Goal) { forall g' :: !Needs(s, g, g') }

  lemma CallerFree(s: State, e: nat)
    requires Inv(s) && e < |s.events| && InLoop(s.events[e].handler) && NeedsNothing(s, Leave(e))
    ensures Can(s, Handle(e, []))
  {
    if s.events[e].handler.Calling? && !Over(s, Inline(e)) {
      assert Needs(s, Leave(e), NeedOf(s, Inline(e)).value);
    }
  }

  /** An event without a handler comes nearer to its dispatch. */
  lemma UndispatchedFree(s: State, e: nat) returns (a: Action)
    requires Inv(s) && e < |s.events| && s.events[e].handler == NotStarted
    ensures Can(s, a) && Ongoing(a)
  {
    if s.events[e].poster == Checked {
      a := Insert(e);
    } else {
      assert e in s.posted && e !in s.dispatched;
      var k :| 0 <= k < |s.posted| && s.posted[k] == e;
      OrderGives(s);
      assert forall i :: 0 <= i < |s.dispatched| ==> s.dispatched[i] == s.posted[i];
      a := DispatchAdvances(s, k);
    }
  }

  lemma HandlerFree(s: State, e: nat) returns (a: Action)
    requires Inv(s) && e < |s.events| && s.events[e].handler !in {NotStarted, Ended} && NeedsNothing(s, End(e))
    ensures Can(s, a) && Ongoing(a)
  {
    var ev := s.events[e];
    a := Handle(e, []);
    if !Can(s, a) {
      HandlerWaits(s, e);
      if ev.handler.Joining? {
        var t :| t in ev.threads;
        a := ListenerEnds(e, t);
        if !Over(s, InThread(e, t)) { ListenerBlocks(s, InThread(e, t)); }
      } else if ev.handler.Locking? {
        assert HoldsOk(s, e);
        assert NeedsLock(s, e, Leave(s.locks[ev.list]));
        assert Needs(s, End(e), Leave(s.locks[ev.list]));
      } else {
        ListenerBlocks(s, Inline(e));
      }
    }
  }

  lemma ListenerBlocks(s: State, l: Listener)
    requires IsListener(s, l) && !Over(s, l)
    ensures Needs(s, End(l.e), NeedOf(s, l).value)
  {
    assert ListenerNeeds(s, l, NeedOf(s, l).value);
  }

  /** What needs nothing else comes nearer by a step that is possible now. */
  lemma FreeStep(s: State, g: Goal) returns (a: Action)
    requires Inv(s) && Open(s, g) && NeedsNothing(s, g)
    ensures Can(s, a) && Ongoing(a)
  {
    var ev := s.events[g.e];
    assert EventOk(ev);
    if g.Leave? {
      CallerFree(s, g.e);
      a := Handle(g.e, []);
    } else if ev.handler == NotStarted {
      a := UndispatchedFree(s, g.e);
    } else if ev.handler != Ended {
      a := HandlerFree(s, g.e);
    } else {
      a := if ev.poster == Inserted then Signal(g.e) else Await(g.e);
    }
  }

  function Code(g: Goal): int { if g.Leave? then 2 * g.e else 2 * g.e + 1 }

  ghost predicate OpenPath(s: State, p: seq<Goal>) {
    |p| > 0 && Path(s, p) && Distinct(p) && forall i :: 0 <= i < |p| ==> Open(s, p[i])
  }

  lemma OpenPathShort(s: State, p: seq<Goal>)
    requires OpenPath(s, p)
    ensures |p| <= 2 * |s.events|
  {
    var codes := seq(|p|, i requires 0 <= i < |p| => Code(p[i]));
    assert Distinct(codes) by {
      forall i, j | 0 <= i < j < |codes| ensures codes[i] != codes[j] { assert p[i] != p[j]; }
    }
    assert forall i :: 0 <= i < |codes| ==> Open(s, p[i]) && 0 <= codes[i] < 2 * |s.events|;
    Pigeonhole(codes, 2 * |s.events|);
  }

  /** A path can be followed further; if it comes back to itself, it was deadlocked. */
  lemma PathGoesOn(s: State, p: seq<Goal>, g: Goal)
    requires |p| > 0 && Path(s, p) && Needs(s, p[|p| - 1], g)
    ensures Path(s, p + [g]) && (g in p ==> Deadlocked(s, p[0]))
  {
    var p' := p + [g];
    assert p'[..|p'| - 1] == p && p'[0] == p[0];
    forall i | 0 <= i < |p'| - 1 ensures Needs(s, p'[i], p'[i + 1]) {
      if i < |p| - 1 { assert Needs(s, p[i], p[i + 1]); }
    }
    if g in p { assert Circle(s, p'); }
  }

  /** From a goal that is not deadlocked the waits lead to one that needs nothing. */
  lemma {:induction false} FindFree(s: State, p: seq<Goal>) returns (a: Action)
    requires Inv(s) && OpenPath(s, p) && !Deadlocked(s, p[0])
    ensures Can(s, a) && Ongoing(a)
    decreases 2 * |s.events| - |p|
  {
    var g := p[|p| - 1];
    if NeedsNothing(s, g) {
      a := FreeStep(s, g);
    } else {
      var g' :| Needs(s, g, g');
      NeedsOpen(s, g, g');
      var p' := p + [g'];
      PathGoesOn(s, p, g');
      OpenPathShort(s, p');
      a := FindFree(s, p');
    }
  }

  // ---- ongoing steps make no circles ------------------------------------------------------------------

  /** What an ongoing step of one event does not do: begin a wait, undo a return. */
  predicate Later(ev: Event, ev': Event) {
    && ev'.list == ev.list
    && (BeforeLock(ev'.handler) ==> BeforeLock(ev.handler))
    && (ev.poster == Returned ==> ev'.poster == Returned)
    && (ev'.handler.Calling? && ev'.handler.wait != Nothing ==> ev'.handler == ev.handler)
    && (forall t :: t in ev'.threads && ev'.threads[t] != Nothing ==>
          t in ev.threads && ev'.threads[t] == ev.threads[t])
  }

  ghost predicate AllLater(s: State, s': State) {
    && |s'.events| == |s.events| && s'.lists == s.lists
    && (forall e :: 0 <= e < |s.events| ==> Later(s.events[e], s'.events[e]))
    && (forall k :: k in s'.locks ==> LockLater(s, s', k))
  }

  /** A lock is as before, or a handler has just taken it. */
  predicate LockLater(s: State, s': State, k: nat)
    requires k in s'.locks
  {
    || (k in s.locks && s'.locks[k] == s.locks[k])
    || (s'.locks[k] < |s'.events| && s'.events[s'.locks[k]].handler.Looping?)
  }

  lemma OneLater(s: State, s': State, e: nat)
    requires OneChanges(s, s', e) && Later(s.events[e], s'.events[e])
    ensures AllLater(s, s')
  {}

  lemma StepLater(ev: Event, found: bool, listeners: seq<Entry>)
    requires ev.handler != NotStarted
    ensures Later(ev, StepHandler(ev, found, listeners))
  {}

  lemma HandleLater(s: State, e: nat, listeners: seq<Entry>)
    requires Can(s, Handle(e, listeners))
    ensures AllLater(s, DoHandle(s, e, listeners))
  {
    StepLater(s.events[e], s.events[e].list in s.lists, listeners);
  }

  lemma OngoingLater(s: State, a: Action)
    requires Core(s) && Can(s, a) && Ongoing(a)
    ensures AllLater(s, Do(s, a))
  {
    match a
    case Insert(e) => OneLater(s, Do(s, a), e);
    case Signal(e) => OneLater(s, Do(s, a), e);
    case Await(e) => OneLater(s, Do(s, a), e);
    case Loop =>
      if s.loop.Moved? {
        MovedIsNew(s);
        OneLater(s, Do(s, a), s.loop.event);
      }
    case Handle(e, listeners) => HandleLater(s, e, listeners);
    case ListenerEnds(e, t) => OneLater(s, Do(s, a), e);
  }

  lemma ListenerNeededBefore(s: State, s': State, l: Listener, g: Goal, g': Goal)
    requires AllLater(s, s') && ListenerNeeds(s', l, g) && Needs(s', g, g')
    ensures ListenerNeeds(s, l, g)
  {
    assert Later(s.events[l.e], s'.events[l.e]);
    assert IsListener(s, l) && WaitOf(s, l) == WaitOf(s', l);
    match WaitOf(s', l)
    case ForPost(f) => assert Later(s.events[f], s'.events[f]);
    case ForLock(k) => assert LockLater(s, s', k);
  }

  lemma NeededBefore(s: State, s': State, g: Goal, g': Goal, g'': Goal)
    requires AllLater(s, s') && Needs(s', g, g') && Needs(s', g', g'')
    ensures Needs(s, g, g')
  {
    match g
    case Leave(e) => ListenerNeededBefore(s, s', Inline(e), g', g'');
    case End(e) =>
      if NeedsLock(s', e, g') {
        assert Later(s.events[e], s'.events[e]) && LockLater(s, s', s'.events[e].list);
      } else {
        var l: Listener :| l.e == e && ListenerNeeds(s', l, g');
        ListenerNeededBefore(s, s', l, g', g'');
      }
  }

  /** A circle does not come about but by a new post or a new wait of a listener. */
  lemma NoNewCircle(s: State, a: Action, p: seq<Goal>)
    requires Core(s) && Can(s, a) && Ongoing(a) && Circle(Do(s, a), p)
    ensures Circle(s, p)
  {
    OngoingLater(s, a);
    forall i | 0 <= i < |p| - 1 ensures Needs(s, p[i], p[i + 1]) {
      var g := NextInCircle(Do(s, a), p, i + 1);
      NeededBefore(s, Do(s, a), p[i], p[i + 1], g);
    }
  }

  // ---- the exact condition ----------------------------------------------------------------------------

  lemma OutstandingKept(s: State, a: Action)
    requires Inv(s) && Can(s, a) && Ongoing(a) && Outstanding(s) < EVENT_MAX_EVENTS
    ensures Outstanding(Do(s, a)) <= Outstanding(s)
  {
    match a
    case Insert(e) =>
      InsertKeepsRing(s, e);
      PosterMoves(s, Do(s, a), e);
    case Loop => LoopOutstanding(s);
    case Signal(e) => PosterMoves(s, Do(s, a), e);
    case Await(e) => PosterMoves(s, Do(s, a), e);
    case Handle(e, listeners) => HandleOutstanding(s, e, listeners);
    case ListenerEnds(e, t) => PosterMoves(s, Do(s, a), e);
  }

  lemma HandleOutstanding(s: State, e: nat, listeners: seq<Entry>)
    requires Core(s) && Can(s, Handle(e, listeners))
    ensures Outstanding(DoHandle(s, e, listeners)) == Outstanding(s)
  {
    assert EventOk(s.events[e]);
    HandleIsLocal(s, e, listeners);
    PosterMoves(s, DoHandle(s, e, listeners), e);
  }

  lemma LoopOutstanding(s: State)
    requires Core(s) && Can(s, Loop)
    ensures Outstanding(DoLoop(s)) <= Outstanding(s)
  {
    var s' := DoLoop(s);
    if s.loop.Moved? {
      MovedIsNew(s);
      PosterMoves(s, s', s.loop.event);
      assert Taken(s') == Taken(s);
    } else {
      assert At(s', Checked) == At(s, Checked);
    }
  }

  /** What may happen from a state on, with fewer than 256 events outstanding. */
  ghost predicate Continues(s: State, r: seq<State>) {
    && |r| > 0 && r[0] == s
    && (forall i :: 0 <= i < |r| ==> Outstanding(r[i]) < EVENT_MAX_EVENTS)
    && forall i :: 0 <= i < |r| - 1 ==> Step(r[i], r[i + 1])
  }

  ghost predicate Finishes(r: seq<State>, x: nat) {
    |r| > 0 && var s := r[|r| - 1]; x < |s.events| && Finished(s.events[x])
  }

  lemma Prepend(s: State, a: Action, r: seq<State>)
    requires Can(s, a) && Continues(Do(s, a), r) && Outstanding(s) < EVENT_MAX_EVENTS
    ensures Continues(s, [s] + r)
  {
    var r' := [s] + r;
    forall i | 0 <= i < |r'| - 1 ensures Step(r'[i], r'[i + 1]) {
      if i > 0 { assert Step(r[i - 1], r[i - 1 + 1]); }
    }
  }

  lemma {:induction false} CanFinish(s: State, x: nat) returns (r: seq<State>)
    requires Inv(s) && Outstanding(s) < EVENT_MAX_EVENTS && x < |s.events| && !Deadlocked(s, End(x))
    ensures Continues(s, r) && Finishes(r, x)
    decreases Work(s)
  {
    if Finished(s.events[x]) {
      r := [s];
    } else {
      assert OpenPath(s, [End(x)]);
      var a := FindFree(s, [End(x)]);
      var s' := Do(s, a);
      WorkShrinks(s, a);
      OutstandingKept(s, a);
      DoKeepsInv(s, a);
      OngoingLater(s, a);
      assert !Deadlocked(s', End(x)) by {
        if Deadlocked(s', End(x)) {
          var p :| Circle(s', p) && p[0] == End(x);
          NoNewCircle(s, a, p);
        }
      }
      var r' := CanFinish(s', x);
      Prepend(s, a, r');
      r := [s] + r';
    }
  }

  /** Every event in the ring gets its handler, whatever waits there are. */
  lemma {:induction false} CanDispatch(s: State, k: nat) returns (r: seq<State>)
    requires Inv(s) && Outstanding(s) < EVENT_MAX_EVENTS && k < |s.posted|
    ensures Continues(s, r) && s.posted <= r[|r| - 1].posted && k < |r[|r| - 1].dispatched|
    decreases if |s.dispatched| <= k then ToDispatch(s, k).steps else 0,
              if |s.dispatched| <= k then ToDispatch(s, k).waits else 0
  {
    if k < |s.dispatched| {
      r := [s];
    } else {
      var a := DispatchAdvances(s, k);
      DispatchNeverSetBack(s, a, k);
      OutstandingKept(s, a);
      DoKeepsInv(s, a);
      var r' := CanDispatch(Do(s, a), k);
      Prepend(s, a, r');
      r := [s] + r';
    }
  }

  lemma {:induction false} CircleStaysInRun(s: State, r: seq<State>, p: seq<Goal>, i: nat)
    requires Inv(s) && Continues(s, r) && Circle(s, p) && i < |r|
    ensures Inv(r[i]) && Circle(r[i], p)
  {
    if i > 0 {
      CircleStaysInRun(s, r, p, i - 1);
      assert Step(r[i - 1], r[i - 1 + 1]);
      var a :| Can(r[i - 1], a) && r[i] == Do(r[i - 1], a);
      DoKeepsInv(r[i - 1], a);
      CircleStays(r[i - 1], a, p);
    }
  }

  /** In some continuation the event gets finished, exactly if its waits do not lead into a circle. */
  lemma FinishIffNoCircle(s: State, x: nat)
    requires Inv(s) && Outstanding(s) < EVENT_MAX_EVENTS && x < |s.events|
    ensures (exists r :: Continues(s, r) && Finishes(r, x)) <==> !Deadlocked(s, End(x))
  {
    if !Deadlocked(s, End(x)) {
      var r := CanFinish(s, x);
    } else {
      var p :| Circle(s, p) && p[0] == End(x);
      forall r | Continues(s, r) ensures !Finishes(r, x) {
        CircleStaysInRun(s, r, p, |r| - 1);
        NeedsOpen(r[|r| - 1], p[0], p[1]);
      }
    }
  }

  // ---- whatever order the threads run in ----------------------------------------------------------------

  ghost predicate OngoingStep(s: State, s': State) { exists a :: Can(s, a) && Ongoing(a) && s' == Do(s, a) }

  /** What may happen from a state on without new posts and waits. */
  ghost predicate GoesOn(s: State, r: seq<State>) {
    |r| > 0 && r[0] == s && forall i :: 0 <= i < |r| - 1 ==> OngoingStep(r[i], r[i + 1])
  }

  ghost predicate AtRest(s: State) { forall a :: Ongoing(a) ==> !Can(s, a) }

  lemma FinishedAtRest(s: State, x: nat)
    requires Inv(s) && AtRest(s) && x < |s.events|
    ensures Finished(s.events[x]) <==> !Deadlocked(s, End(x))
  {
    if Finished(s.events[x]) && Deadlocked(s, End(x)) {
      var p :| Circle(s, p) && p[0] == End(x);
      NeedsOpen(s, p[0], p[1]);
    }
    if !Finished(s.events[x]) && !Deadlocked(s, End(x)) {
      assert OpenPath(s, [End(x)]);
      var a := FindFree(s, [End(x)]);
    }
  }

  lemma OngoingKeepsCircles(s: State, a: Action, g: Goal)
    requires Inv(s) && Can(s, a) && Ongoing(a)
    ensures Deadlocked(Do(s, a), g) <==> Deadlocked(s, g)
  {
    if Deadlocked(s, g) {
      var p :| Circle(s, p) && p[0] == g;
      CircleStays(s, a, p);
    }
    if Deadlocked(Do(s, a), g) {
      var p :| Circle(Do(s, a), p) && p[0] == g;
      NoNewCircle(s, a, p);
    }
  }

  /** What does not change on the way to rest. */
  ghost predicate Follows(s: State, s': State, n: nat, x: nat) {
    && Inv(s') && Outstanding(s') < EVENT_MAX_EVENTS && |s'.events| == |s.events|
    && n + Work(s') <= Work(s)
    && (Deadlocked(s', End(x)) <==> Deadlocked(s, End(x)))
  }

  lemma StepFollows(s: State, s1: State, n: nat, a: Action, x: nat)
    requires Follows(s, s1, n, x) && Can(s1, a) && Ongoing(a)
    ensures Follows(s, Do(s1, a), n + 1, x)
  {
    WorkShrinks(s1, a);
    OutstandingKept(s1, a);
    DoKeepsInv(s1, a);
    OngoingLater(s1, a);
    OngoingKeepsCircles(s1, a, End(x));
  }

  lemma {:induction false} RunFollows(s: State, r: seq<State>, i: nat, x: nat)
    requires Inv(s) && Outstanding(s) < EVENT_MAX_EVENTS && GoesOn(s, r) && i < |r|
    ensures Follows(s, r[i], i, x)
  {
    if i > 0 {
      RunFollows(s, r, i - 1, x);
      assert OngoingStep(r[i - 1], r[i - 1 + 1]);
      var a :| Can(r[i - 1], a) && Ongoing(a) && r[i] == Do(r[i - 1], a);
      StepFollows(s, r[i - 1], i - 1, a, x);
    }
  }

  /** Without new posts and waits the threads come to rest in whatever order they run, and then
      exactly those events are finished whose waits did not lead into a circle at the beginning. */
  lemma EveryRunSettles(s: State, r: seq<State>, x: nat)
    requires Inv(s) && Outstanding(s) < EVENT_MAX_EVENTS && GoesOn(s, r) && x < |s.events|
    ensures |r| <= Work(s) + 1
    ensures |r[|r| - 1].events| == |s.events|
    ensures AtRest(r[|r| - 1]) ==> (Finished(r[|r| - 1].events[x]) <==> !Deadlocked(s, End(x)))
  {
    RunFollows(s, r, |r| - 1, x);
    if AtRest(r[|r| - 1]) { FinishedAtRest(r[|r| - 1], x); }
  }

  // ---- what circles are like --------------------------------------------------------------------------

  lemma EndNeedsLater(s: State, e: nat, f: nat)
    requires Inv(s) && Needs(s, End(e), End(f))
    ensures e < f
  {
    var l: Listener :| l.e == e && ListenerNeeds(s, l, End(f));
    assert WaitOk(s.events, l.e, WaitOf(s, l));
  }

  /** Without a handler that waits for the listener it is calling, waits lead to later events. */
  lemma {:induction false} EndsAscend(s: State, p: seq<Goal>, j: nat, i: nat)
    requires Inv(s) && Path(s, p) && j < i < |p| && forall k :: j <= k <= i ==> p[k].End?
    ensures p[j].e < p[i].e
  {
    assert Needs(s, p[i - 1], p[i - 1 + 1]);
    EndNeedsLater(s, p[i - 1].e, p[i].e);
    if j < i - 1 { EndsAscend(s, p, j, i - 1); }
  }

  /** A circle passes the end of a loop, from place k of the path back to it over place j. */
  lemma CircleHasLeave(s: State, p: seq<Goal>) returns (j: nat, k: nat)
    requires Inv(s) && Circle(s, p)
    ensures j <= k < |p| - 1 && p[j] == p[|p| - 1] && p[k].Leave?
  {
    var n := |p| - 1;
    j :| 0 <= j < n && p[j] == p[n];
    if forall i :: j <= i <= n ==> p[i].End? { EndsAscend(s, p, j, n); }
    k :| j <= k <= n && p[k].Leave?;
    if k == n { k := j; }
  }

  lemma Rotate(s: State, p: seq<Goal>, j: nat, k: nat)
    requires Path(s, p) && j <= k < |p| - 1 && p[j] == p[|p| - 1]
    ensures Path(s, p[k..|p| - 1] + p[j..k + 1])
  {
    var n := |p| - 1;
    var q := p[k..n] + p[j..k + 1];
    forall i | 0 <= i < |q| - 1 ensures Needs(s, q[i], q[i + 1]) {
      var m := if i < n - k then k + i else j + i - (n - k);
      assert q[i] == p[m] && q[i + 1] == p[m + 1];
      assert Needs(s, p[m], p[m + 1]);
    }
  }

  /** In every circle there is a handler whose listener waits, directly or through further events,
      for the lock of the list that the handler itself is going through. */
  lemma CircleHasCaller(s: State, p: seq<Goal>) returns (h: nat, q: seq<Goal>)
    requires Inv(s) && Circle(s, p)
    ensures IsListener(s, Inline(h)) && !Over(s, Inline(h))
    ensures |q| >= 2 && Path(s, q) && q[0] == Leave(h) && q[|q| - 1] == Leave(h)
  {
    var j, k := CircleHasLeave(s, p);
    Rotate(s, p, j, k);
    h, q := p[k].e, p[k..|p| - 1] + p[j..k + 1];
    assert Needs(s, p[k], p[k + 1]);
  }

  /** As long as no listener that is called by a handler waits, every event can be finished. */
  lemma FinishIfNoCallerWaits(s: State, x: nat) returns (r: seq<State>)
    requires Inv(s) && Outstanding(s) < EVENT_MAX_EVENTS && x < |s.events|
    requires forall e :: IsListener(s, Inline(e)) ==> Over(s, Inline(e))
    ensures Continues(s, r) && Finishes(r, x)
  {
    if Deadlocked(s, End(x)) {
      var p :| Circle(s, p) && p[0] == End(x);
      var h, q := CircleHasCaller(s, p);
      assert false;
    }
    r := CanFinish(s, x);
  }

  // ---- a listener that posts an event of its own kind ----------------------------------------------------

  /** An event waits for a listener that waits for another event, which needs the lock. */
  lemma TwoNeeds(s: State, e: nat, f: nat)
    requires e < |s.events| && f < |s.events| && ListenerNeeds(s, Inline(e), End(f)) && NeedsLock(s, f, Leave(e))
    ensures Deadlocked(s, End(e)) && Deadlocked(s, End(f))
  {
    assert Needs(s, Leave(e), End(f));
    var p, q := [End(e), End(f), Leave(e), End(f)], [End(f), Leave(e), End(f)];
    assert p[1] == p[3] && q[0] == q[2];
    assert Circle(s, p) && Circle(s, q);
  }

  /** A listener called by a handler makes a blocking post for the same source and type: neither
      the handler nor the new event comes to its end any more. */
  lemma OwnKindDeadlocks(s: State, e: nat, hasFree: bool)
    requires Inv(s) && IsListener(s, Inline(e)) && Over(s, Inline(e))
    ensures var s' := Do(s, PostFrom(Inline(e), hasFree, s.events[e].list));
            Deadlocked(s', End(e)) && Deadlocked(s', End(|s.events|))
  {
    assert HoldsOk(s, e);
    TwoNeeds(Do(s, PostFrom(Inline(e), hasFree, s.events[e].list)), e, |s.events|);
  }

  lemma FewOutstanding(s: State)
    ensures Outstanding(s) <= |s.posted| + |s.events|
  {
    var all := Range(0, |s.events|);
    forall e | e in At(s, Checked) ensures e in Members(all) { assert all[e] == e; }
    SubsetSize<int>(At(s, Checked), Members(all));
    DistinctSize(all);
  }

  lemma ExtendRun(r: seq<State>, a: Action) returns (r': seq<State>)
    requires Run(r) && Can(r[|r| - 1], a)
    requires var s := Do(r[|r| - 1], a); |s.posted| + |s.events| < EVENT_MAX_EVENTS
    ensures Run(r') && r'[|r'| - 1] == Do(r[|r| - 1], a)
  {
    r' := r + [Do(r[|r| - 1], a)];
    FewOutstanding(Do(r[|r| - 1], a));
    forall i | 0 <= i < |r'| - 1 ensures Step(r'[i], r'[i + 1]) {
      if i < |r| - 1 { assert Step(r[i], r[i + 1]); }
    }
  }

  function NoSlots(): seq<nat> { seq(EVENT_MAX_EVENTS, _ => 0) }

  /** One event has been posted; its handler is about to start. */
  lemma OnePosted() returns (r: seq<State>)
    ensures Run(r)
    ensures r[|r| - 1] == State(NoSlots(), 0, 1, 1, AtWait, [NewEvent(false, false, 0).(poster := Signalled)], [0], [],
                                {0}, map[], false)
  {
    r := [State(NoSlots(), 0, 0, 0, AtWait, [], [], [], {}, map[], false)];
    FewOutstanding(r[0]);
    r := ExtendRun(r, AddList(0));
    r := ExtendRun(r, Check(false, false, 0));
    r := ExtendRun(r, Insert(0));
    assert NoSlots()[0 := 0] == NoSlots();
    r := ExtendRun(r, Signal(0));
  }

  lemma OneRead() returns (r: seq<State>)
    ensures Run(r)
    ensures r[|r| - 1] == State(NoSlots(), 0, 1, 0, Read(0), [NewEvent(false, false, 0).(poster := Signalled)], [0], [],
                                {0}, map[], false)
  {
    r := OnePosted();
    r := ExtendRun(r, Loop);
    r := ExtendRun(r, Loop);
  }

  lemma OneDispatched() returns (r: seq<State>)
    ensures Run(r)
    ensures r[|r| - 1] == State(NoSlots(), 1, 1, 0, AtWait,
                                [NewEvent(false, false, 0).(poster := Signalled, handler := Looking)], [0], [0],
                                {0}, map[], false)
  {
    r := OneRead();
    r := ExtendRun(r, Loop);
    r := ExtendRun(r, Loop);
  }

  lemma OneCalling(entry: Entry) returns (r: seq<State>)
    requires !entry.newThread
    ensures Run(r)
    ensures r[|r| - 1] == State(NoSlots(), 1, 1, 0, AtWait,
                                [NewEvent(false, false, 0).(poster := Signalled, handler := Calling(entry, [], Nothing),
                                                            listeners := [entry])],
                                [0], [0], {0}, map[0 := 0], false)
  {
    r := OneDispatched();
    r := ExtendRun(r, Handle(0, []));
    r := ExtendRun(r, Handle(0, [entry]));
    r := ExtendRun(r, Handle(0, []));
    assert [entry][1..] == [];
  }

  lemma NeverFinishes(s: State, x: nat, r: seq<State>)
    requires Inv(s) && Outstanding(s) < EVENT_MAX_EVENTS && x < |s.events| && Deadlocked(s, End(x)) && Continues(s, r)
    ensures !Finishes(r, x)
  {
    FinishIffNoCircle(s, x);
  }

  lemma NeitherFinishes(s: State)
    requires Inv(s) && Outstanding(s) < EVENT_MAX_EVENTS && |s.events| == 2
    requires Deadlocked(s, End(0)) && Deadlocked(s, End(1))
    ensures forall r', x | Continues(s, r') && x in {0, 1} :: !Finishes(r', x)
  {
    forall r', x | Continues(s, r') && x in {0, 1} ensures !Finishes(r', x) {
      NeverFinishes(s, x, r');
    }
  }

  /** A run that ends with a handler and an event waiting for each other for ever. */
  lemma DeadlockedRun() returns (r: seq<State>)
    ensures Run(r) && |r[|r| - 1].events| == 2
    ensures forall r', x | Continues(r[|r| - 1], r') && x in {0, 1} :: !Finishes(r', x)
  {
    r := OneCalling(Entry(0, false));
    RunKeepsInv(r, |r| - 1);
    OwnKindDeadlocks(r[|r| - 1], 0, false);
    r := ExtendRun(r, PostFrom(Inline(0), false, 0));
    RunKeepsInv(r, |r| - 1);
    NeitherFinishes(r[|r| - 1]);
  }
}
