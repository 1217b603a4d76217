/**
  The id table of src/idTable.c: a growing array whose unused slots form a free list threaded
  through the slots themselves. Ids are slot numbers.
 */
module IdTable {
  import opened Sequences

  datatype Slot<T> = Free(nextFree: int) | Used(element: T)

  /** The outcome of idt_putElementAt: done; refused with a message because the slot is in
      use; or, when the slot is in use and there is no free slot at all, a read of the slot
      before the first one, which C leaves undefined. */
  datatype Outcome = Stored | Occupied | Undefined

  /** The free list, from its i-th slot on, is threaded through the table. */
  ghost predicate ThreadedAt<T>(table: seq<Slot<T>>, chain: seq<int>, i: nat)
    requires i < |chain|
  {
    && 0 <= chain[i] < |table|
    && table[chain[i]] == Free(if i + 1 < |chain| then chain[i + 1] else -1)
  }

  /** `chain` lists exactly the free slots, each once, in the order of the free list. */
  ghost predicate Threaded<T>(table: seq<Slot<T>>, firstFree: int, chain: seq<int>) {
    && firstFree == (if chain == [] then -1 else chain[0])
    && Distinct(chain)
    && (forall i :: 0 <= i < |chain| ==> ThreadedAt(table, chain, i))
    && (forall k :: 0 <= k < |table| && table[k].Free? ==> k in chain)
  }

  /** The live elements by id. */
  ghost function Live<T>(table: seq<Slot<T>>): map<nat, T> {
    map k: nat | k < |table| && table[k].Used? :: table[k].element
  }

  /** The table without the slot at position i of the free list: its predecessor, if any,
      takes over its link. */
  ghost function Skipping<T>(table: seq<Slot<T>>, chain: seq<int>, i: nat, element: T): seq<Slot<T>>
    requires i < |chain| && ThreadedAt(table, chain, i) && (i > 0 ==> ThreadedAt(table, chain, i - 1))
  {
    (if i == 0 then table else table[chain[i - 1] := table[chain[i]]])[chain[i] := Used(element)]
  }

  lemma Unthread<T>(table: seq<Slot<T>>, firstFree: int, chain: seq<int>, i: nat, element: T)
    requires Threaded(table, firstFree, chain) && i < |chain|
    requires ThreadedAt(table, chain, i) && (i > 0 ==> ThreadedAt(table, chain, i - 1))
    ensures Threaded(Skipping(table, chain, i, element),
                     if i == 0 then table[chain[0]].nextFree else firstFree, chain[..i] + chain[i + 1..])
    ensures Live(Skipping(table, chain, i, element)) == Live(table)[chain[i] := element]
  {
    var table', chain' := Skipping(table, chain, i, element), chain[..i] + chain[i + 1..];
    forall j | 0 <= j < |chain'| ensures ThreadedAt(table', chain', j) {
      assert ThreadedAt(table, chain, if j < i then j else j + 1);
    }
    forall k | 0 <= k < |table'| && table'[k].Free? ensures k in chain' {
      assert table[k].Free?;
      var j :| 0 <= j < |chain| && chain[j] == k;
      assert chain'[if j < i then j else j - 1] == k;
    }
  }

  /** Putting a slot in use at the head of the free list. */
  lemma Rethread<T>(table: seq<Slot<T>>, firstFree: int, chain: seq<int>, index: nat)
    requires Threaded(table, firstFree, chain) && index < |table| && table[index].Used?
    ensures Threaded(table[index := Free(firstFree)], index, [index] + chain)
    ensures Live(table[index := Free(firstFree)]) == Live(table) - {index}
  {
    var table', chain' := table[index := Free(firstFree)], [index] + chain;
    forall i | 0 <= i < |chain| ensures chain[i] != index {
      assert ThreadedAt(table, chain, i);
    }
    forall j | 0 <= j < |chain'| ensures ThreadedAt(table', chain', j) {
      if j > 0 { assert ThreadedAt(table, chain, j - 1); }
    }
    forall k | 0 <= k < |table'| && table'[k].Free? ensures k in chain' {
      if k == index { assert chain'[0] == k; } else { assert k in chain; }
    }
  }

  ghost function LiveIds<T>(table: seq<Slot<T>>): set<int> {
    set k: int | 0 <= k < |table| && table[k].Used?
  }

  /** Free and live slots together are the whole table. */
  lemma SlotsAddUp<T>(table: seq<Slot<T>>, firstFree: int, chain: seq<int>)
    requires Threaded(table, firstFree, chain)
    ensures |LiveIds(table)| + |chain| == |table|
  {
    var free := Members(chain);
    forall x | x in chain ensures 0 <= x < |table| && table[x].Free? {
      var i :| 0 <= i < |chain| && chain[i] == x;
      assert ThreadedAt(table, chain, i);
    }
    var all := Range(0, |table|);
    forall k | 0 <= k < |table| ensures k in all { assert all[k] == k; }
    assert Members(all) == LiveIds(table) + free;
    DistinctSize(all);
    DistinctSize(chain);
  }

  lemma NewTable<T>(table: seq<Slot<T>>)
    requires |table| > 0
    requires forall k :: 0 <= k < |table| ==> table[k] == Free(if k + 1 < |table| then k + 1 else -1)
    ensures Threaded(table, 0, Range(0, |table|)) && Live(table) == map[]
  {
    forall k | 0 <= k < |table| ensures k in Range(0, |table|) {
      assert Range(0, |table|)[k] == k;
    }
  }

  /** Slots of a longer table that continue the free list in front. */
  lemma Extend<T>(table: seq<Slot<T>>, firstFree: int, chain: seq<int>, table': seq<Slot<T>>)
    requires Threaded(table, firstFree, chain) && |table| < |table'| && table'[..|table|] == table
    requires forall k :: |table| <= k < |table'| ==>
               table'[k] == Free(if k + 1 < |table'| then k + 1 else firstFree)
    ensures Threaded(table', |table|, Range(|table|, |table'|) + chain)
    ensures Live(table') == Live(table)
  {
    var n, chain' := |table'| - |table|, Range(|table|, |table'|) + chain;
    forall i | 0 <= i < |chain| ensures 0 <= chain[i] < |table| {
      assert ThreadedAt(table, chain, i);
    }
    forall j | 0 <= j < |chain'| ensures ThreadedAt(table', chain', j) {
      if j >= n {
        assert ThreadedAt(table, chain, j - n);
        assert table'[chain'[j]] == table[chain[j - n]];
      }
    }
    forall k | 0 <= k < |table'| && table'[k].Free? ensures k in chain' {
      if k < |table| {
        assert table[k] == table'[k];
        assert k in chain;
      } else {
        assert chain'[k - |table|] == k;
      }
    }
    forall k: nat | k < |table'| && table'[k].Used? ensures k < |table| && table[k] == table'[k] {}
  }

  class Table<T> {
    var table: array<Slot<T>>
    var firstFree: int
    var elementCount: int
    ghost var chain: seq<int>

    ghost predicate Valid()
      reads this, table
    {
      && table.Length >= 1
      && Threaded(table[..], firstFree, chain)
      && elementCount + |chain| == table.Length
    }

    ghost function Elements(): map<nat, T>
      reads this, table
    {
      Live(table[..])
    }

    /** idt_create2 */
    constructor (initialCount: nat)
      requires initialCount >= 1
      ensures Valid() && fresh(table) && table.Length == initialCount && Elements() == map[]
      ensures elementCount == 0 && chain == Range(0, initialCount)
    {
      var slots := new Slot<T>[initialCount](i => Free(-1));
      for i := 0 to initialCount - 1
        invariant forall k :: 0 <= k < initialCount ==> slots[k] == Free(if k < i then k + 1 else -1)
      {
        slots[i] := Free(i + 1);
      }
      NewTable(slots[..]);
      table, firstFree, elementCount := slots, 0, 0;
      chain := Range(0, initialCount);
    }

    /** idt_enlarge: twice the slots; the new ones come first in the free list. */
    method Enlarge()
      requires Valid()
      modifies this`table, this`firstFree, this`chain
      ensures Valid() && fresh(table) && table.Length == 2 * old(table.Length)
      ensures Elements() == old(Elements()) && elementCount == old(elementCount)
      ensures chain == Range(old(table.Length), 2 * old(table.Length)) + old(chain)
    {
      var cur, head, oldSize := table, firstFree, table.Length;
      var newSize := oldSize * 2;
      var slots := new Slot<T>[newSize](i requires i < newSize reads cur =>
                                          if 0 <= i < cur.Length then cur[i] else Free(head));
      for i := oldSize to newSize - 1
        modifies slots
        invariant slots[..oldSize] == cur[..]
        invariant forall k :: oldSize <= k < newSize ==> slots[k] == Free(if k < i then k + 1 else head)
      {
        slots[i] := Free(i + 1);
      }
      Extend(cur[..], head, chain, slots[..]);
      table := slots;
      firstFree := oldSize;
      chain := Range(oldSize, newSize) + chain;
    }

    /** Puts an element in the first free slot (107-112 and 212-216). */
    method TakeFirst(element: T)
      requires Valid() && firstFree != -1
      modifies this`firstFree, this`elementCount, this`chain, table
      ensures old(chain) != [] && old(chain)[0] == old(firstFree) >= 0
      ensures Valid() && elementCount == old(elementCount) + 1 && chain == old(chain)[1..]
      ensures old(firstFree) !in old(Elements())
      ensures Elements() == old(Elements())[old(firstFree) as nat := element]
    {
      assert ThreadedAt(table[..], chain, 0) && chain[0] == firstFree;
      Unthread(table[..], firstFree, chain, 0, element);
      var index := firstFree;
      firstFree := table[index].nextFree;
      table[index] := Used(element);
      elementCount := elementCount + 1;
      assert chain[1..] == chain[..0] + chain[1..];
      chain := chain[1..];
    }

    lemma FirstFree()
      requires Valid()
      ensures firstFree == -1 <==> chain == []
    {
      if chain != [] { assert ThreadedAt(table[..], chain, 0); }
    }

    /** idt_add: the first free slot, after doubling the table if there is none. */
    method Add(element: T) returns (index: nat)
      requires Valid()
      modifies this, table
      ensures Valid() && index !in old(Elements())
      ensures Elements() == old(Elements())[index := element]
      ensures elementCount == old(elementCount) + 1
      ensures index == if old(chain) == [] then old(table.Length) else old(chain)[0]
      ensures table == old(table) || fresh(table)
      ensures old(chain) != [] ==> table == old(table) && chain == old(chain)[1..]
      ensures old(chain) == [] ==> table.Length == 2 * old(table.Length)
    {
      FirstFree();
      if firstFree == -1 {
        Enlarge();
        assert firstFree != -1;
      }
      FirstFree();
      assert ThreadedAt(table[..], chain, 0);
      index := firstFree;
      TakeFirst(element);
    }

    /** idt_getElementAt; its assertions are the precondition. */
    method GetElementAt(index: nat) returns (element: T)
      requires Valid() && index in Elements()
      ensures element == Elements()[index]
    {
      element := table[index].element;
    }

    /** idt_isElementAllocated */
    method IsElementAllocated(index: nat) returns (r: bool)
      requires Valid()
      ensures r <==> index in Elements()
    {
      r := index < table.Length && !table[index].Free?;
    }

    /** idt_remove; its assertion is the precondition. */
    method Remove(index: nat)
      requires Valid() && index in Elements()
      modifies this`firstFree, this`elementCount, this`chain, table
      ensures Valid() && Elements() == old(Elements()) - {index}
      ensures elementCount == old(elementCount) - 1 && elementCount >= 0
      ensures chain == [index] + old(chain)
    {
      Rethread(table[..], firstFree, chain, index);
      SlotsAddUp(table[..][index := Free(firstFree)], index, [index] + chain);
      table[index] := Free(firstFree);
      firstFree := index;
      elementCount := elementCount - 1;
      chain := [index] + chain;
    }

    /** elementCount is the number of live elements. */
    lemma CountsElements()
      requires Valid()
      ensures elementCount == |LiveIds(table[..])|
      ensures forall k: nat :: k in Elements() <==> k in LiveIds(table[..])
    {
      SlotsAddUp(table[..], firstFree, chain);
    }

    /** Where the search loop of idt_putElementAt (221-225) stops: on the free slot whose link
        is the index, or else on the last free slot. */
    method FindBefore(index: nat) returns (prevFree: int, ghost i: nat)
      requires Valid() && chain != [] && firstFree != index
      ensures i < |chain| && prevFree == chain[i] && ThreadedAt(table[..], chain, i)
      ensures table[prevFree].nextFree == index || table[prevFree].nextFree == -1
      ensures table[prevFree].nextFree == index ==> i + 1 < |chain| && chain[i + 1] == index
      ensures table[prevFree].nextFree == -1 ==> index !in chain
    {
      i := 0;
      assert ThreadedAt(table[..], chain, 0);
      prevFree := firstFree;
      while table[prevFree].nextFree != index && table[prevFree].nextFree != -1
        invariant i < |chain| && prevFree == chain[i] && ThreadedAt(table[..], chain, i)
        invariant index !in chain[..i + 1]
        decreases |chain| - i
      {
        prevFree := table[prevFree].nextFree;
        i := i + 1;
        assert ThreadedAt(table[..], chain, i);
        assert chain[..i + 1] == chain[..i] + [chain[i]];
      }
      if i + 1 < |chain| {
        assert ThreadedAt(table[..], chain, i + 1);
      } else {
        assert chain[..i + 1] == chain;
      }
    }

    /** Puts an element in a free slot that is not the first (240-249). */
    method TakeAfter(prevFree: int, index: nat, element: T, ghost i: nat)
      requires Valid() && i + 1 < |chain| && prevFree == chain[i] && index == chain[i + 1]
      modifies this`elementCount, this`chain, table
      ensures Valid() && elementCount == old(elementCount) + 1
      ensures index !in old(Elements()) && Elements() == old(Elements())[index := element]
    {
      assert ThreadedAt(table[..], chain, i) && ThreadedAt(table[..], chain, i + 1);
      Unthread(table[..], firstFree, chain, i + 1, element);
      table[prevFree] := Free(table[index].nextFree);
      table[index] := Used(element);
      elementCount := elementCount + 1;
      chain := chain[..i + 1] + chain[i + 2..];
    }

    /** The enlarging loop of idt_putElementAt (201-202). */
    method EnlargeFor(index: nat)
      requires Valid()
      modifies this`table, this`firstFree, this`chain
      ensures Valid() && Elements() == old(Elements()) && elementCount == old(elementCount)
      ensures table == old(table) || fresh(table)
      ensures index < table.Length
      ensures index < old(table.Length) ==> table == old(table) && chain == old(chain) && firstFree == old(firstFree)
    {
      while index >= table.Length
        invariant Valid() && Elements() == old(Elements()) && elementCount == old(elementCount)
        invariant table == old(table) || fresh(table)
        invariant index < old(table.Length) ==>
                    table == old(table) && chain == old(chain) && firstFree == old(firstFree)
        decreases index - table.Length
      {
        Enlarge();
      }
    }

    /** idt_putElementAt in a debug build. It stores exactly if the id is not in use, and then
        changes nothing else; otherwise it changes nothing, but it is well defined only if
        there is some free slot. */
    method PutElementAt(index: nat, element: T) returns (r: Outcome)
      requires Valid()
      modifies this, table
      ensures Valid()
      ensures r == Stored <==> index !in old(Elements())
      ensures r == Undefined <==> index in old(Elements()) && old(chain) == []
      ensures r == Stored ==> Elements() == old(Elements())[index := element] && elementCount == old(elementCount) + 1
      ensures r != Stored ==> Elements() == old(Elements()) && elementCount == old(elementCount) && chain == old(chain)
      ensures table == old(table) || fresh(table)
      ensures index < old(table.Length) ==> table == old(table)
    {
      EnlargeFor(index);
      FirstFree();
      assert index !in Elements() ==> table[..][index].Free?;
      assert index in Elements() ==> index < old(table.Length);
      if firstFree == index {
        TakeFirst(element);
        return Stored;
      }
      if firstFree == -1 {
        return Undefined;
      }
      var prevFree, i := FindBefore(index);
      if table[prevFree].nextFree == -1 {
        return Occupied;
      }
      TakeAfter(prevFree, index, element, i);
      r := Stored;
    }
  }

  /** How the undefined outcome is reached: a table of one slot, an element in it, and a second
      one put at the same id. */
  method OnlySlotTaken<T>(element: T, other: T) returns (r: Outcome)
    ensures r == Undefined
  {
    var idt := new Table<T>(1);
    var index := idt.Add(element);
    assert index == 0 && idt.chain == [];
    r := idt.PutElementAt(index, other);
  }
}
