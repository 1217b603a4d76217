/**
  The two doubly linked lists of src/threadpool.c: the workers that are available and the
  workers in use. `Lists` is what they mean; `Pool` is how the C code links them.
 */
module PoolLists {
  import opened Sequences

  datatype Lists<T(==)> = Lists(avail: seq<T>, inUse: seq<T>) {

    /** Every worker is in exactly one of the two lists, once. */
    ghost predicate Apart() {
      && Distinct(avail) && Distinct(inUse)
      && (forall x :: x in avail ==> x !in inUse)
    }

    /** The worker handed out next, if one is available. */
    function Taken(): Lists<T>
      requires avail != []
    {
      Lists(avail[1..], [avail[0]] + inUse)
    }

    function Created(x: T): Lists<T> { Lists(avail, [x] + inUse) }

    function Returned(x: T): Lists<T> { Lists([x] + avail, Remove(inUse, x)) }
  }

  /** The sequence without the first occurrence of x. */
  function Remove<T(==)>(s: seq<T>, x: T): seq<T> {
    if s == [] then [] else if s[0] == x then s[1..] else [s[0]] + Remove(s[1..], x)
  }

  lemma {:induction false} RemoveSplits<T>(s: seq<T>, k: nat)
    requires k < |s|
    requires forall i :: 0 <= i < k ==> s[i] != s[k]
    ensures Remove(s, s[k]) == s[..k] + s[k + 1..]
  {
    if k > 0 {
      RemoveSplits(s[1..], k - 1);
      assert s[..k] == [s[0]] + s[1..][..k - 1];
      assert s[1..][k - 1 + 1..] == s[k + 1..];
    }
  }

  /** Removing a member of a sequence without repetitions removes that member and nothing
      else. */
  lemma RemoveMember<T>(s: seq<T>, x: T)
    requires Distinct(s) && x in s
    ensures Distinct(Remove(s, x))
    ensures forall y :: y in Remove(s, x) <==> y in s && y != x
  {
    var k :| 0 <= k < |s| && s[k] == x;
    RemoveSplits(s, k);
    WithoutPlace(s, k);
  }

  lemma WithoutPlace<T>(s: seq<T>, k: nat)
    requires Distinct(s) && k < |s|
    ensures Distinct(s[..k] + s[k + 1..])
    ensures forall y :: y in s[..k] + s[k + 1..] <==> y in s && y != s[k]
  {
    var rest := s[..k] + s[k + 1..];
    forall y | y in s && y != s[k] ensures y in rest {
      var i :| 0 <= i < |s| && s[i] == y;
      assert rest[if i < k then i else i - 1] == y;
    }
    forall i | 0 <= i < |rest| ensures rest[i] in s && rest[i] != s[k] {
      assert rest[i] == s[if i < k then i else i + 1];
    }
  }

  /** Taking, creating and giving back keep every worker in exactly one list, move exactly
      that worker and leave all others where they were. */
  lemma TakenKeepsApart<T>(l: Lists<T>)
    requires l.Apart() && l.avail != []
    ensures l.Taken().Apart()
    ensures forall x :: x in l.Taken().avail <==> x in l.avail && x != l.avail[0]
    ensures forall x :: x in l.Taken().inUse <==> x in l.inUse || x == l.avail[0]
  {
    assert l.avail == [l.avail[0]] + l.avail[1..];
    assert l.avail[0] in l.avail;
  }

  lemma CreatedKeepsApart<T>(l: Lists<T>, x: T)
    requires l.Apart() && x !in l.avail && x !in l.inUse
    ensures l.Created(x).Apart()
    ensures forall y :: y in l.Created(x).inUse <==> y in l.inUse || y == x
  {}

  lemma ReturnedKeepsApart<T>(l: Lists<T>, x: T)
    requires l.Apart() && x in l.inUse
    ensures l.Returned(x).Apart()
    ensures forall y :: y in l.Returned(x).avail <==> y in l.avail || y == x
    ensures forall y :: y in l.Returned(x).inUse <==> y in l.inUse && y != x
  {
    RemoveMember(l.inUse, x);
  }

  // ---- the links ---------------------------------------------------------------------

  class Worker {
    var next: Worker?
    var prev: Worker?

    constructor ()
      ensures next == null && prev == null
    {
      next, prev := null, null;
    }
  }

  /** One list head together with the code that the pool runs on it. */
  class WorkerList {
    var first: Worker?
    ghost var ws: seq<Worker>

    /** A well-formed doubly linked list holding exactly the workers ws, in this order. */
    ghost predicate Valid()
      reads this, ws
    {
      && Distinct(ws)
      && first == (if ws == [] then null else ws[0])
      && forall i :: 0 <= i < |ws| ==> LinksAt(ws, i)
    }

    constructor ()
      ensures Valid() && ws == []
    {
      first, ws := null, [];
    }

    method PushFront(w: Worker)
      requires Valid() && w !in ws
      modifies this, ws, w
      ensures Valid() && ws == [w] + old(ws)
    {
      var head := first;
      if head != null {
        head.prev := w;
      }
      w.next := head;
      w.prev := null;
      first := w;
      ghost var was := ws;
      ws := [w] + ws;
      forall i | 0 <= i < |ws| ensures LinksAt(ws, i) {
        if i > 0 {
          assert ws[i] == was[i - 1] && old(LinksAt(was, i - 1));
        }
      }
    }

    method PopFront() returns (w: Worker)
      requires Valid() && ws != []
      modifies this, ws
      ensures Valid() && w == old(ws)[0] && ws == old(ws)[1..]
    {
      ghost var was := ws;
      assert LinksAt(was, 0);
      w := first;
      first := w.next;
      if first != null {
        assert first == was[1];
        first.prev := null;
      }
      ws := ws[1..];
      forall i | 0 <= i < |ws| ensures LinksAt(ws, i) {
        assert ws[i] == was[i + 1] && old(LinksAt(was, i + 1));
      }
    }

    method Unlink(w: Worker)
      requires Valid() && w in ws
      modifies this, ws
      ensures Valid() && ws == Remove(old(ws), w) && forall i :: 0 <= i < |ws| ==> ws[i] in old(ws)
    {
      ghost var k, rest := PlaceOf(ws, w);
      assert LinksAt(ws, k);
      if first == w {
        first := w.next;
      }
      Bypass(w, ws, k);
      ws := rest;
    }
  }

  lemma PlaceOf<T>(ws: seq<T>, w: T) returns (k: nat, rest: seq<T>)
    requires Distinct(ws) && w in ws
    ensures k < |ws| && ws[k] == w && rest == ws[..k] + ws[k + 1..] == Remove(ws, w) && Distinct(rest)
    ensures forall i :: 0 <= i < |rest| ==> rest[i] in ws
    ensures rest != [] ==> rest[0] == ws[if k == 0 then 1 else 0]
  {
    k :| 0 <= k < |ws| && ws[k] == w;
    rest := ws[..k] + ws[k + 1..];
    RemoveSplits(ws, k);
    RemoveMember(ws, w);
  }

  /** The neighbours of a worker are linked to each other (413-416). */
  method Bypass(w: Worker, ghost ws: seq<Worker>, ghost k: nat)
    requires Distinct(ws) && k < |ws| && ws[k] == w && forall i :: 0 <= i < |ws| ==> LinksAt(ws, i)
    modifies ws
    ensures var rest := ws[..k] + ws[k + 1..]; forall i :: 0 <= i < |rest| ==> LinksAt(rest, i)
  {
    assert LinksAt(ws, k);
    if w.prev != null {
      assert w.prev == ws[k - 1];
      w.prev.next := w.next;
    }
    if w.next != null {
      assert w.next == ws[k + 1];
      w.next.prev := w.prev;
    }
    ghost var rest := ws[..k] + ws[k + 1..];
    forall i | 0 <= i < |rest| ensures LinksAt(rest, i) {
      assert rest[i] == ws[if i < k then i else i + 1];
      assert old(LinksAt(ws, if i < k then i else i + 1));
    }
  }

  ghost predicate LinksAt(ws: seq<Worker>, i: nat)
    requires i < |ws|
    reads ws[i]
  {
    && ws[i].next == (if i + 1 < |ws| then ws[i + 1] else null)
    && ws[i].prev == (if i == 0 then null else ws[i - 1])
  }

  class Pool {
    const available: WorkerList
    const busy: WorkerList

    ghost function Contents(): Lists<Worker>
      reads available, busy
    {
      Lists(available.ws, busy.ws)
    }

    ghost predicate Valid()
      reads this, available, busy, available.ws, busy.ws
    {
      && available != busy
      && available.Valid() && busy.Valid()
      && Contents().Apart()
    }

    constructor ()
      ensures Valid() && Contents() == Lists([], []) && fresh(available) && fresh(busy)
    {
      available := new WorkerList();
      busy := new WorkerList();
    }

    /** The list section of threadPool_runThread. */
    method Take() returns (w: Worker)
      requires Valid()
      modifies available, busy, available.ws, busy.ws
      ensures Valid()
      ensures old(Contents()).avail != [] ==> w == old(Contents()).avail[0] && Contents() == old(Contents()).Taken()
      ensures old(Contents()).avail == [] ==> fresh(w) && Contents() == old(Contents()).Created(w)
    {
      ghost var free, used := available.ws, busy.ws;
      if available.first == null {
        w := new Worker();
      } else {
        TakenKeepsApart(Contents());
        w := available.PopFront();
        assert available.ws == Lists(free, used).Taken().avail;
        assert forall i :: 0 <= i < |used| ==> used[i] !in free && LinksAt(used, i);
      }
      busy.PushFront(w);
      assert forall i :: 0 <= i < |available.ws| ==>
                           available.ws[i] !in used && available.ws[i] != w && LinksAt(available.ws, i);
    }

    /** The list section of threadPoolThread_mainLoop. */
    method GiveBack(w: Worker)
      requires Valid() && w in busy.ws
      modifies available, busy, available.ws, busy.ws
      ensures Valid() && Contents() == old(Contents()).Returned(w)
      ensures forall i :: 0 <= i < |busy.ws| ==> busy.ws[i] in old(busy.ws)
    {
      ghost var free, used := available.ws, busy.ws;
      ReturnedKeepsApart(Contents(), w);
      busy.Unlink(w);
      assert forall i :: 0 <= i < |free| ==> free[i] !in used && LinksAt(free, i);
      available.PushFront(w);
      assert forall i :: 0 <= i < |busy.ws| ==>
                           busy.ws[i] !in free && busy.ws[i] != w && LinksAt(busy.ws, i);
    }
  }
}
