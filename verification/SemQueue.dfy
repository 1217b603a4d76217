/**
  The queue of src/queue.c: a singly linked list under a mutex, with a counting semaphore
  that consumers wait on before they pop.
 */
module SemQueue {
  import opened Sequences

  // ---- the list ------------------------------------------------------------------------

  class Entry<T> {
    var newer: Entry?<T>
    const userData: T

    constructor (userData: T)
      ensures newer == null && this.userData == userData
    {
      this.userData := userData;
      newer := null;
    }
  }

  class List<T> {
    var oldest: Entry?<T>
    var newest: Entry?<T>
    ghost var entries: seq<Entry<T>>

    ghost predicate Valid()
      reads this, entries
    {
      && Distinct(entries)
      && oldest == (if entries == [] then null else entries[0])
      && newest == (if entries == [] then null else entries[|entries| - 1])
      && forall i :: 0 <= i < |entries| ==> LinksAt(entries, i)
    }

    ghost function Contents(): seq<T>
      reads this
    {
      Data(entries)
    }

    constructor ()
      ensures Valid() && Contents() == [] && entries == []
    {
      oldest, newest, entries := null, null, [];
    }

    /** queue_push, under the mutex. */
    method Push(userElement: T)
      requires Valid()
      modifies this, entries
      ensures Valid() && Contents() == old(Contents()) + [userElement]
      ensures |entries| == |old(entries)| + 1 && entries[..|old(entries)|] == old(entries)
              && fresh(entries[|old(entries)|])
    {
      var element := new Entry<T>(userElement);
      ghost var was := entries;
      if newest == null {
        oldest := element;
      } else {
        assert newest == was[|was| - 1];
        newest.newer := element;
      }
      newest := element;
      entries := entries + [element];
      forall i | 0 <= i < |entries| ensures LinksAt(entries, i) {
        if i < |was| {
          assert entries[i] == was[i] && old(LinksAt(was, i));
        }
      }
    }

    /** doPop, under the mutex; the assertions of the code are the precondition. */
    method DoPop() returns (userData: T)
      requires Valid() && Contents() != []
      modifies this
      ensures Valid() && [userData] + Contents() == old(Contents()) && entries == old(entries)[1..]
    {
      ghost var was := entries;
      assert LinksAt(was, 0);
      var element := oldest;
      oldest := element.newer;
      if oldest == null {
        newest := null;
      }
      userData := element.userData;
      entries := entries[1..];
      forall i | 0 <= i < |entries| ensures LinksAt(entries, i) {
        assert entries[i] == was[i + 1] && LinksAt(was, i + 1);
      }
    }

    /** validate: both of its assertions hold and its loop ends. */
    method Validate() returns (ok: bool)
      requires Valid()
      ensures ok
    {
      if oldest == null {
        ok := newest == null;
      } else {
        var element := oldest;
        ghost var i := 0;
        assert LinksAt(entries, 0);
        while element.newer != null
          invariant i < |entries| && element == entries[i] && LinksAt(entries, i)
          decreases |entries| - i
        {
          element := element.newer;
          i := i + 1;
          assert LinksAt(entries, i);
        }
        ok := newest == element && element.newer == null;
      }
    }
  }

  ghost predicate LinksAt<T>(entries: seq<Entry<T>>, i: nat)
    requires i < |entries|
    reads entries[i]
  {
    entries[i].newer == if i + 1 < |entries| then entries[i + 1] else null
  }

  ghost function Data<T>(entries: seq<Entry<T>>): (d: seq<T>)
    ensures |d| == |entries| && forall i :: 0 <= i < |d| ==> d[i] == entries[i].userData
  {
    seq(|entries|, i requires 0 <= i < |entries| => entries[i].userData)
  }

  // ---- producers and consumers ------------------------------------------------------------

  /** `posting`: threads that have linked an element and not yet posted the semaphore.
      `holding`: threads that have passed the semaphore and not yet popped. `linked` and
      `popped` record the elements in the order they were linked and unlinked. */
  datatype State<T> = State(list: seq<T>, sem: nat, posting: set<nat>, holding: set<nat>,
                            linked: seq<T>, popped: seq<T>, failed: bool)

  datatype Action<T> =
    | Link(t: nat, x: T)  // queue_push, 134-158
    | Post(t: nat)        // queue_push, 165
    | Pass(t: nat)        // queue_pop, 191; queue_waitFor, 246, when it does not time out
    | Pop(t: nat)         // doPop

  ghost predicate Init<T>(s: State<T>) {
    s == State([], 0, {}, {}, [], [], false)
  }

  predicate Can<T>(s: State<T>, a: Action<T>) {
    match a
    case Link(t, _) => t !in s.posting && t !in s.holding
    case Post(t) => t in s.posting
    case Pass(t) => t !in s.posting && t !in s.holding && s.sem > 0
    case Pop(t) => t in s.holding
  }

  function Do<T>(s: State<T>, a: Action<T>): State<T>
    requires Can(s, a)
  {
    match a
    case Link(t, x) => s.(list := s.list + [x], linked := s.linked + [x], posting := s.posting + {t})
    case Post(t) => s.(sem := s.sem + 1, posting := s.posting - {t})
    case Pass(t) => s.(sem := s.sem - 1, holding := s.holding + {t})
    case Pop(t) =>
      if s.list == [] then s.(failed := true)
      else s.(list := s.list[1..], popped := s.popped + [s.list[0]], holding := s.holding - {t})
  }

  /** A step fails exactly if it pops from an empty list (218). */
  lemma StepFailsIff<T>(s: State<T>, a: Action<T>)
    requires Can(s, a)
    ensures Do(s, a).failed <==> s.failed || (a.Pop? && s.list == [])
  {}

  ghost predicate Step<T(!new)>(s: State<T>, s': State<T>) { exists a :: Can(s, a) && s' == Do(s, a) }

  ghost predicate Run<T(!new)>(r: seq<State<T>>) {
    |r| > 0 && Init(r[0]) && forall i :: 0 <= i < |r| - 1 ==> Step(r[i], r[i + 1])
  }

  /** Tokens are conserved: every element on the list has exactly one, in the semaphore, in
      the hand of a consumer, or still to be posted by its producer. */
  ghost predicate Inv<T>(s: State<T>) {
    && !s.failed
    && |s.list| == s.sem + |s.holding| + |s.posting|
    && s.linked == s.popped + s.list
  }

  lemma DoKeepsInv<T>(s: State<T>, a: Action<T>)
    requires Inv(s) && Can(s, a)
    ensures Inv(Do(s, a))
  {
    match a
    case Link(_, x) => assert s.popped + (s.list + [x]) == (s.popped + s.list) + [x];
    case Post(_) =>
    case Pass(_) =>
    case Pop(t) =>
      assert |s.holding| > 0 by { assert t in s.holding; }
      assert s.popped + s.list == (s.popped + [s.list[0]]) + s.list[1..];
  }

  /** In every run, with any number of producers and consumers: no pop finds the list empty,
      the elements leave in the order in which they were linked, and none is lost: whenever
      nobody is in the middle of a call, the semaphore counts exactly the list. */
  lemma {:induction false} FirstInFirstOut<T(!new)>(r: seq<State<T>>, i: nat)
    requires Run(r) && i < |r|
    ensures Inv(r[i])
    ensures r[i].popped <= r[i].linked && r[i].linked == r[i].popped + r[i].list
    ensures r[i].holding != {} ==> r[i].list != []
    ensures r[i].holding == {} && r[i].posting == {} ==> r[i].sem == |r[i].list|
    decreases i
  {
    if i > 0 {
      FirstInFirstOut(r, i - 1);
      assert Step(r[i - 1], r[i - 1 + 1]);
      var a :| Can(r[i - 1], a) && r[i] == Do(r[i - 1], a);
      DoKeepsInv(r[i - 1], a);
    }
  }

  // ---- elements get through -------------------------------------------------------------

  /** What may happen from a state on. */
  ghost predicate Continues<T(!new)>(s: State<T>, r: seq<State<T>>) {
    |r| > 0 && r[0] == s && forall i :: 0 <= i < |r| - 1 ==> Step(r[i], r[i + 1])
  }

  lemma Prepend<T(!new)>(s: State<T>, a: Action<T>, r: seq<State<T>>)
    requires Can(s, a) && Continues(Do(s, a), r)
    ensures Continues(s, [s] + r)
  {
    var r' := [s] + r;
    forall i | 0 <= i < |r'| - 1 ensures Step(r'[i], r'[i + 1]) {
      if i > 0 { assert Step(r[i - 1], r[i - 1 + 1]); }
    }
  }

  /** The thread is not in a call. */
  predicate Free<T>(s: State<T>, t: nat) { t !in s.posting && t !in s.holding }

  /** The step that brings the oldest element nearer to being popped: of a consumer that has passed
      the semaphore, of a free thread that passes it, or of a producer that posts it. */
  lemma PopAdvances<T(!new)>(s: State<T>, t: nat) returns (a: Action<T>)
    requires Inv(s) && Free(s, t) && s.list != []
    ensures Can(s, a)
    ensures a.Pop? ==> Do(s, a).popped == s.popped + [s.list[0]]
    ensures a.Pass? ==> Do(s, a).holding != {} && s.holding == {} && a.t == t
    ensures a.Post? ==> |Do(s, a).posting| == |s.posting| - 1 && Do(s, a).holding == s.holding == {}
    ensures !a.Link? && (a.Pass? || Free(Do(s, a), t))
    ensures Do(s, a).linked == s.linked && (!a.Pop? ==> Do(s, a).popped == s.popped && Do(s, a).list == s.list)
  {
    if u :| u in s.holding {
      a := Pop(u);
    } else if s.sem > 0 {
      a := Pass(t);
      assert t in Do(s, a).holding;
    } else {
      assert |s.posting| > 0;
      var u :| u in s.posting;
      a := Post(u);
    }
  }

  lemma PassThenPop<T(!new)>(s: State<T>, t: nat)
    requires Inv(s) && Can(s, Pass(t)) && s.holding == {}
    ensures Inv(Do(s, Pass(t))) && Can(Do(s, Pass(t)), Pop(t))
    ensures var s' := Do(Do(s, Pass(t)), Pop(t));
            s'.popped == s.popped + [s.list[0]] && Free(s', t) && s'.linked == s.linked && s'.posting == s.posting
  {
    DoKeepsInv(s, Pass(t));
  }

  /** From every state with a thread that is free to pop, a finite number of steps pops any element
      that has been linked. */
  lemma {:induction false} ElementCanBePopped<T(!new)>(s: State<T>, t: nat, k: nat) returns (r: seq<State<T>>)
    requires Inv(s) && Free(s, t) && k < |s.linked|
    ensures Continues(s, r) && r[|r| - 1].linked == s.linked
    ensures k < |r[|r| - 1].popped| && r[|r| - 1].popped[k] == s.linked[k]
    decreases |s.linked| - |s.popped|, |s.posting|
  {
    if k < |s.popped| {
      r := [s];
    } else {
      var a := PopAdvances(s, t);
      DoKeepsInv(s, a);
      if a.Pass? {
        PassThenPop(s, t);
        var s1 := Do(s, a);
        DoKeepsInv(s1, Pop(t));
        var r' := ElementCanBePopped(Do(s1, Pop(t)), t, k);
        Prepend(s1, Pop(t), r');
        Prepend(s, a, [s1] + r');
        r := [s] + ([s1] + r');
      } else {
        var r' := ElementCanBePopped(Do(s, a), t, k);
        Prepend(s, a, r');
        r := [s] + r';
      }
    }
  }

  /** A push by a free thread appends its element, and returns. */
  lemma PushReturns<T>(s: State<T>, t: nat, x: T)
    requires Inv(s) && Free(s, t)
    ensures Can(s, Link(t, x)) && Can(Do(s, Link(t, x)), Post(t))
    ensures var s' := Do(Do(s, Link(t, x)), Post(t));
            s'.linked == s.linked + [x] && s'.sem == s.sem + 1 && Free(s', t) && s'.popped == s.popped
  {}
}
