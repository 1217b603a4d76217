/**
  The word map of src/wordMap.c: entries of a name and a number, indexed by name, by number or
  both, over the hash tables of HashTable.
 */
module WordMap {
  import opened Wrappers
  import opened Text
  import opened HashTable

  const WORD := 0x1_0000_0000
  type Word32 = n: int | 0 <= n < 0x1_0000_0000

  /** An unsigned int given to "%d", or returned as an int. */
  function AsInt(n: Word32): int { if n < 0x8000_0000 then n else n - WORD }

  lemma AsIntFits(n: Word32)
    ensures AsInt(n) in {n, n - WORD} && -0x8000_0000 <= AsInt(n) < 0x8000_0000
  {}
  /** An int stored in an unsigned int. */
  function AsWord(n: int): Word32 { n % WORD }

  datatype Entry = Entry(name: string, number: Word32)

  /** HashString, up to the signs of its characters. */
  function HashString(s: string): bv32 {
    if s == [] then 0 else (HashString(s[..|s| - 1]) << 4) ^ ((s[|s| - 1] as int % WORD) as bv32)
  }

  /** Only whether strcmp gives zero matters here. */
  function NameKeys(): Keys<Entry> {
    Keys((e: Entry) => HashString(e.name) as int, (e: Entry, f: Entry) => if e.name == f.name then 0 else 1)
  }

  function NumberKeys(): Keys<Entry> {
    Keys((e: Entry) => AsInt(e.number), (e: Entry, f: Entry) => AsInt(AsWord(f.number - e.number)))
  }

  /** The two compare functions decide equality of names and of numbers. */
  lemma SameNameSameNumber()
    ensures forall e, f :: NameKeys().Same(e, f) <==> e.name == f.name
    ensures forall e, f :: NumberKeys().Same(e, f) <==> e.number == f.number
  {
    forall e: Entry, f: Entry ensures NumberKeys().Same(e, f) <==> e.number == f.number {
      var d := f.number - e.number;
      assert AsWord(d) == if d < 0 then d + WORD else d;
    }
  }

  lemma KeysAreSound()
    ensures Sound(NameKeys()) && Sound(NumberKeys())
  {
    SameNameSameNumber();
    assert forall e: Entry :: NumberKeys().calcIndx(e) == AsInt(e.number);
  }

  // ---------- entries as a value ----------

  /** No two entries share a name or a number: by name and by number are mutually inverse. */
  ghost predicate Bijective(entries: set<Entry>) {
    forall e, f :: e in entries && f in entries ==> (e.name == f.name <==> e.number == f.number)
  }

  ghost predicate HasName(entries: set<Entry>, name: string) { exists e :: e in entries && e.name == name }
  ghost predicate HasNumber(entries: set<Entry>, number: Word32) { exists e :: e in entries && e.number == number }

  /** A template finds by its name, whatever its number; and the other way round. */
  lemma NameIsKey(entries: set<Entry>, name: string, number: Word32)
    ensures HasName(entries, name) <==> exists e :: e in entries && NameKeys().Same(Entry(name, number), e)
    ensures forall e :: e in entries ==> (NameKeys().Same(Entry(name, number), e) <==> e.name == name)
  {
    SameNameSameNumber();
  }

  lemma NumberIsKey(entries: set<Entry>, name: string, number: Word32)
    ensures HasNumber(entries, number) <==> exists e :: e in entries && NumberKeys().Same(Entry(name, number), e)
    ensures forall e :: e in entries ==> (NumberKeys().Same(Entry(name, number), e) <==> e.number == number)
  {
    SameNameSameNumber();
  }

  function Insert(keys: Keys<Entry>, items: set<Entry>, e: Entry): set<Entry> {
    if exists f :: f in items && keys.Same(e, f) then items else items + {e}
  }

  function Indexed(keys: Keys<Entry>, entries: seq<Entry>): set<Entry> {
    if entries == [] then {} else Insert(keys, Indexed(keys, entries[..|entries| - 1]), entries[|entries| - 1])
  }

  /** If no two of them are equivalent, all entries get into the index. */
  lemma {:induction false} AllIndexed(keys: Keys<Entry>, entries: seq<Entry>)
    requires forall i, j :: 0 <= i < j < |entries| ==> !keys.Same(entries[j], entries[i])
    ensures Indexed(keys, entries) == set e | e in entries
  {
    if entries != [] {
      var n := |entries| - 1;
      AllIndexed(keys, entries[..n]);
    }
  }

  predicate ByName(kind: int) { kind % 2 == 1 }
  predicate ByNumber(kind: int) { kind % 4 >= 2 }

  const WORDMAP_BYNAME := 1
  const WORDMAP_BYNUMBER := 2
  const WORDMAP_BYNAME_NUMBER := 3

  /** Which indexes the three kinds of map have. */
  lemma Kinds()
    ensures ByName(WORDMAP_BYNAME) && !ByNumber(WORDMAP_BYNAME)
    ensures !ByName(WORDMAP_BYNUMBER) && ByNumber(WORDMAP_BYNUMBER)
    ensures ByName(WORDMAP_BYNAME_NUMBER) && ByNumber(WORDMAP_BYNAME_NUMBER)
  {}

  // ---------- the saved lines ----------

  function EntryLine(e: Entry): string { IntToString(AsInt(e.number)) + " " + e.name }

  function WriteAll<T>(write: T -> string, xs: seq<T>): (lines: seq<string>)
    ensures |lines| == |xs|
  {
    if xs == [] then [] else WriteAll(write, xs[..|xs| - 1]) + [write(xs[|xs| - 1])]
  }

  lemma {:induction false} WriteAllAt<T>(write: T -> string, xs: seq<T>, i: nat)
    requires i < |xs|
    ensures WriteAll(write, xs)[i] == write(xs[i])
  {
    if i < |xs| - 1 { WriteAllAt(write, xs[..|xs| - 1], i); }
  }

  function ReadAll<T>(read: string -> Option<T>, lines: seq<string>): (r: Option<seq<T>>)
    ensures r.Some? ==> |r.value| == |lines|
  {
    if lines == [] then Some([]) else
    var front, last := ReadAll(read, lines[..|lines| - 1]), read(lines[|lines| - 1]);
    if front == None || last == None then None else Some(front.value + [last.value])
  }

  lemma {:induction false} ReadAllUndoesWriteAll<T(!new)>(write: T -> string, read: string -> Option<T>, xs: seq<T>)
    requires forall x :: read(write(x)) == Some(x)
    ensures ReadAll(read, WriteAll(write, xs)) == Some(xs)
  {
    if xs != [] {
      var n := |xs| - 1;
      ReadAllUndoesWriteAll(write, read, xs[..n]);
      var lines := WriteAll(write, xs);
      assert lines[..n] == WriteAll(write, xs[..n]) && lines[n] == write(xs[n]);
      assert xs == xs[..n] + [xs[n]];
    }
  }

  const VERSION := 2 // FILE_FORMAT_VERSION

  /** What wordMap_save writes, line by line. */
  function SavedLines(name: string, kind: int, entries: seq<Entry>): seq<string> {
    [IntToString(VERSION), name, IntToString(kind), IntToString(|entries|)] + WriteAll(EntryLine, entries)
  }

  /** What wordMap_createFromString reads: a map to build; a version it does not know; or a text
      on which it does not return, because a line or a name is missing or a table of no slots is
      asked for. */
  datatype Reading = Reading(name: string, kind: int, entries: seq<Entry>) | Unsupported(version: int) | Crash

  function ReadEntry(line: string): Option<Entry> {
    var cut := Strsep(Some(line), {' '});
    if cut.rest == None then None else Some(Entry(cut.rest.value, AsWord(Atoi(cut.token.value))))
  }

  function ReadBody(name: string, kind: int, count: int, lines: seq<string>): Reading {
    if count == 0 && (ByName(kind) || ByNumber(kind)) then Crash
    else if count <= 0 then Reading(name, kind, [])
    else if |lines| < count then Crash
    else
      match ReadAll(ReadEntry, lines[..count])
      case None => Crash
      case Some(entries) => Reading(name, kind, entries)
  }

  function ReadLines(lines: seq<string>): Reading {
    if |lines| < 2 then Crash else
    match Atoi(lines[0])
    case 1 => if |lines| < 3 then Crash else ReadBody(lines[1], WORDMAP_BYNAME_NUMBER, Atoi(lines[2]), lines[3..])
    case 2 => if |lines| < 4 then Crash else ReadBody(lines[1], Atoi(lines[2]), Atoi(lines[3]), lines[4..])
    case version => Unsupported(version)
  }

  lemma ReadsEntryLine(e: Entry)
    ensures ReadEntry(EntryLine(e)) == Some(e)
  {
    NumberWord(AsInt(e.number), e.name, {' '});
  }

  lemma ReadsEntryLines(entries: seq<Entry>)
    ensures ReadAll(ReadEntry, WriteAll(EntryLine, entries)) == Some(entries)
  {
    forall e ensures ReadEntry(EntryLine(e)) == Some(e) { ReadsEntryLine(e); }
    ReadAllUndoesWriteAll(EntryLine, ReadEntry, entries);
  }

  lemma ReadsBody(name: string, kind: int, entries: seq<Entry>, lines: seq<string>)
    requires ByName(kind) || ByNumber(kind)
    requires ReadAll(ReadEntry, lines) == Some(entries)
    ensures ReadBody(name, kind, |lines|, lines) == if entries == [] then Crash else Reading(name, kind, entries)
  {
    assert lines[..|lines|] == lines;
  }

  /** Saved lines are read back as the entries that were saved. The one exception is a map
      without entries: the count it saves is the table size asked for when it is read. */
  lemma ReadUndoesSave(name: string, kind: int, entries: seq<Entry>)
    requires ByName(kind) || ByNumber(kind)
    ensures ReadLines(SavedLines(name, kind, entries)) ==
            if entries == [] then Crash else Reading(name, kind, entries)
  {
    AtoiUndoesPrint(VERSION);
    AtoiUndoesPrint(kind);
    AtoiUndoesPrint(|entries|);
    assert SavedLines(name, kind, entries)[4..] == WriteAll(EntryLine, entries);
    ReadsEntryLines(entries);
    ReadsBody(name, kind, entries, WriteAll(EntryLine, entries));
  }

  // ---------- the file as one text ----------

  function FileText(lines: seq<string>): string {
    if lines == [] then "" else lines[0] + ['\n'] + FileText(lines[1..])
  }

  /** The lines of a text, each ended by a newline. */
  function LinesOf(text: string): seq<string>
    decreases |text|
  {
    var cut := Strsep(Some(text), {'\n'});
    if cut.rest == None then [] else [cut.token.value] + LinesOf(cut.rest.value)
  }

  lemma {:induction false} LinesOfFile(lines: seq<string>)
    requires forall i :: 0 <= i < |lines| ==> '\n' !in lines[i]
    ensures LinesOf(FileText(lines)) == lines
  {
    if lines == [] {
      StrsepUndoesJoin("", '\n', "", {'\n'});
    } else {
      assert '\n' !in lines[0];
      StrsepUndoesJoin(lines[0], '\n', FileText(lines[1..]), {'\n'});
      LinesOfFile(lines[1..]);
    }
  }

  /** Names without newlines survive in the file itself. */
  lemma FileReadsBack(name: string, kind: int, entries: seq<Entry>)
    requires (ByName(kind) || ByNumber(kind)) && entries != []
    requires '\n' !in name && forall i :: 0 <= i < |entries| ==> '\n' !in entries[i].name
    ensures ReadLines(LinesOf(FileText(SavedLines(name, kind, entries)))) == Reading(name, kind, entries)
  {
    var lines := SavedLines(name, kind, entries);
    assert !IsDigit('\n');
    forall i | 0 <= i < |lines| ensures '\n' !in lines[i] {
      if i >= 4 { WriteAllAt(EntryLine, entries, i - 4); }
    }
    LinesOfFile(lines);
    ReadUndoesSave(name, kind, entries);
  }

  // ---------- the map itself ----------

  ghost predicate Separate(a: Table<Entry>, b: Table<Entry>)
    reads a, b
  {
    a != b && a.infoArray != b.infoArray && NodesOf(a.chains) !! NodesOf(b.chains)
  }

  /** In a table, equivalent elements are equal. */
  lemma ItemsApart(keys: Keys<Entry>, chains: Chains<Entry>, e: Entry, f: Entry)
    requires Sound(keys) && |chains| > 0 && AllPlaced(keys, chains)
    requires e in ItemsOf(chains) && f in ItemsOf(chains) && keys.Same(e, f)
    ensures e == f
  {
    var i, j :| 0 <= i < |chains| && 0 <= j < |chains[i]| && chains[i][j].data == e;
    var i', j' :| 0 <= i' < |chains| && 0 <= j' < |chains[i']| && chains[i'][j'].data == f;
    OneNode(keys, chains, i, j, i', j');
  }

  /** HashAdd on one of two tables that share no memory, if the kind of the map asks for it. */
  method AddTo(t: Table<Entry>, ghost other: Table<Entry>, e: Entry, wanted: bool)
    requires t.Valid() && other.Valid() && Separate(t, other)
    modifies t`elementCount, t`chains, t.infoArray
    ensures t.Valid() && other.Valid() && Separate(t, other)
    ensures t.Items() == if wanted then Insert(t.keys, old(t.Items()), e) else old(t.Items())
    ensures fresh(NodesOf(t.chains) - old(NodesOf(t.chains)))
  {
    if wanted {
      var _ := t.Add(e);
    }
  }

  lemma WithoutIsMinus(keys: Keys<Entry>, chains: Chains<Entry>, e: Entry)
    requires Sound(keys) && |chains| > 0 && AllPlaced(keys, chains) && e in ItemsOf(chains)
    ensures Without(keys, ItemsOf(chains), e) == ItemsOf(chains) - {e}
  {
    forall f | f in ItemsOf(chains) && keys.Same(e, f) ensures f == e {
      ItemsApart(keys, chains, e, f);
    }
  }

  /** HashDelete of an entry of one of two tables that share no memory: it returns 1. */
  method DeleteFrom(t: Table<Entry>, ghost other: Table<Entry>, e: Entry) returns (done: bool)
    requires t.Valid() && other.Valid() && Separate(t, other) && e in t.Items()
    modifies t`elementCount, t`chains, t.infoArray, NodesOf(t.chains)
    ensures t.Valid() && other.Valid() && Separate(t, other)
    ensures done && t.Items() == old(t.Items()) - {e} && NodesOf(t.chains) <= old(NodesOf(t.chains))
  {
    WithoutIsMinus(t.keys, t.chains, e);
    var removed := t.Delete(e);
    done := removed.Some?;
  }

  /** Indexes that agree go on doing so when an entry is offered to both, exactly if its name and
      its number are both new or both taken. */
  lemma InsertsAgree(entries: set<Entry>, e: Entry)
    ensures Insert(NameKeys(), entries, e) == Insert(NumberKeys(), entries, e) <==>
            (HasName(entries, e.name) <==> HasNumber(entries, e.number))
  {
    NameIsKey(entries, e.name, e.number);
    NumberIsKey(entries, e.name, e.number);
    assert e in entries ==> NameKeys().Same(e, e) && NumberKeys().Same(e, e);
  }

  /** An entry that the two indexes do not treat alike: its name is taken and its number is not. */
  lemma AddCanSplitIndexes()
    ensures var entries, e := {Entry("a", 1)}, Entry("a", 2);
            && Bijective(entries)
            && Insert(NameKeys(), entries, e) == entries
            && Insert(NumberKeys(), entries, e) == entries + {e} != entries
  {
    var entries, e := {Entry("a", 1)}, Entry("a", 2);
    NameIsKey(entries, e.name, e.number);
    NumberIsKey(entries, e.name, e.number);
    assert Entry("a", 1) in entries;
    assert e !in entries;
  }

  method EntryOfName(t: Table<Entry>, name: string) returns (entry: Entry)
    requires t.Valid() && t.keys == NameKeys() && HasName(t.Items(), name)
    ensures entry in t.Items() && entry.name == name
  {
    NameIsKey(t.Items(), name, 0);
    var found := t.Find(Entry(name, 0));
    assert found.Some?;
    entry := found.value;
  }

  method EntryOfNumber(t: Table<Entry>, number: Word32) returns (entry: Entry)
    requires t.Valid() && t.keys == NumberKeys() && HasNumber(t.Items(), number)
    ensures entry in t.Items() && entry.number == number
  {
    NumberIsKey(t.Items(), "", number);
    var found := t.Find(Entry("", number));
    assert found.Some?;
    entry := found.value;
  }

  /** Deleting an entry from a first index and, if there is one, from the second: both
      assertions on the results of HashDelete hold. */
  method DeleteBoth(first: Table<Entry>, second: Table<Entry>, hasSecond: bool, entry: Entry)
    requires first.Valid() && second.Valid() && Separate(first, second) && Separate(second, first)
    requires entry in first.Items() && (hasSecond ==> entry in second.Items())
    modifies first`elementCount, first`chains, first.infoArray, NodesOf(first.chains)
    modifies second`elementCount, second`chains, second.infoArray, NodesOf(second.chains)
    ensures first.Valid() && second.Valid() && Separate(first, second)
    ensures first.Items() == old(first.Items()) - {entry}
    ensures second.Items() == if hasSecond then old(second.Items()) - {entry} else old(second.Items())
    ensures NodesOf(first.chains) <= old(NodesOf(first.chains)) && NodesOf(second.chains) <= old(NodesOf(second.chains))
  {
    var tempInt := DeleteFrom(first, second, entry);
    assert tempInt;
    if hasSecond {
      tempInt := DeleteFrom(second, first, entry);
      assert tempInt;
    }
  }

  class WordMap {
    const name: string
    const kind: int
    const byName: Table<Entry> // of use only if the kind asks for it, and else empty
    const byNumber: Table<Entry>

    ghost predicate Valid()
      reads this, byName, byNumber
      reads byName.infoArray, byNumber.infoArray, NodesOf(byName.chains), NodesOf(byNumber.chains)
    {
      && byName.Valid() && byName.keys == NameKeys() && (!ByName(kind) ==> byName.Items() == {})
      && byNumber.Valid() && byNumber.keys == NumberKeys() && (!ByNumber(kind) ==> byNumber.Items() == {})
      && Separate(byName, byNumber)
    }

    /** Both indexes hold the same entries. */
    ghost predicate Agree()
      reads this, byName, byNumber
    {
      ByName(kind) && ByNumber(kind) ==> byName.Items() == byNumber.Items()
    }

    /** wordMap_create2 */
    constructor (name: string, kind: int, hashTableSize: nat)
      requires hashTableSize > 0
      ensures Valid() && Agree() && this.name == name && this.kind == kind
      ensures byName.Items() == {} && byNumber.Items() == {}
      ensures fresh(byName) && fresh(byNumber) && fresh(byName.infoArray) && fresh(byNumber.infoArray)
      ensures NodesOf(byName.chains) == {} && NodesOf(byNumber.chains) == {}
    {
      KeysAreSound();
      this.name, this.kind := name, kind;
      byName := new Table(hashTableSize, NameKeys());
      byNumber := new Table(hashTableSize, NumberKeys());
    }

    /** Indexes that agree are mutually inverse. */
    lemma AgreeingIsInverse()
      requires Valid() && Agree() && ByName(kind) && ByNumber(kind)
      ensures Bijective(byName.Items()) && Bijective(byNumber.Items())
    {
      SameNameSameNumber();
      forall e, f | e in byName.Items() && f in byName.Items() ensures e.name == f.name <==> e.number == f.number {
        if e.name == f.name { ItemsApart(NameKeys(), byName.chains, e, f); }
        if e.number == f.number { ItemsApart(NumberKeys(), byNumber.chains, e, f); }
      }
    }

    /** wordMap_add: each index takes the entry or refuses it on its own. */
    method AddEntry(name: string, number: int)
      requires Valid()
      modifies byName`elementCount, byName`chains, byName.infoArray
      modifies byNumber`elementCount, byNumber`chains, byNumber.infoArray
      ensures Valid()
      ensures fresh(NodesOf(byName.chains) - old(NodesOf(byName.chains)))
      ensures fresh(NodesOf(byNumber.chains) - old(NodesOf(byNumber.chains)))
      ensures ByName(kind) ==> byName.Items() == Insert(NameKeys(), old(byName.Items()), Entry(name, AsWord(number)))
      ensures ByNumber(kind) ==>
                byNumber.Items() == Insert(NumberKeys(), old(byNumber.Items()), Entry(name, AsWord(number)))
    {
      var newEntry := Entry(name, AsWord(number));
      AddTo(byName, byNumber, newEntry, ByName(kind));
      assert NodesOf(byNumber.chains) == old(NodesOf(byNumber.chains)) && byNumber.Items() == old(byNumber.Items());
      AddTo(byNumber, byName, newEntry, ByNumber(kind));
    }

    /** What wordMap_add does to two indexes that agree: they go on agreeing exactly if both take
        the entry or both refuse it, that is, if name and number are both new or both taken. */
    method Add(name: string, number: int)
      requires Valid()
      modifies byName`elementCount, byName`chains, byName.infoArray
      modifies byNumber`elementCount, byNumber`chains, byNumber.infoArray
      ensures Valid()
      ensures fresh(NodesOf(byName.chains) - old(NodesOf(byName.chains)))
      ensures fresh(NodesOf(byNumber.chains) - old(NodesOf(byNumber.chains)))
      ensures ByName(kind) ==> byName.Items() == Insert(NameKeys(), old(byName.Items()), Entry(name, AsWord(number)))
      ensures ByNumber(kind) ==>
                byNumber.Items() == Insert(NumberKeys(), old(byNumber.Items()), Entry(name, AsWord(number)))
      ensures ByName(kind) && ByNumber(kind) && old(Agree()) ==>
                (Agree() <==>
                   (old(HasName(byName.Items(), name)) <==> old(HasNumber(byNumber.Items(), AsWord(number)))))
    {
      InsertsAgree(byName.Items(), Entry(name, AsWord(number)));
      AddEntry(name, number);
    }

    /** wordMap_findByName. The answer -1 stands for a map without that index, for a name that is
        not there, and also for the number 4294967295. */
    method FindByName(name: string) returns (r: int)
      requires Valid()
      ensures ByName(kind) ==> forall e :: e in byName.Items() && e.name == name ==> r == AsInt(e.number)
      ensures !ByName(kind) || (forall e :: e in byName.Items() ==> e.name != name) ==> r == -1
    {
      if !ByName(kind) {
        return -1;
      }
      SameNameSameNumber();
      var found := byName.Find(Entry(name, 0));
      match found {
        case None => r := -1;
        case Some(entry) =>
          forall e | e in byName.Items() && e.name == name ensures e == entry {
            ItemsApart(NameKeys(), byName.chains, e, entry);
          }
          r := AsInt(entry.number);
      }
    }

    /** wordMap_findByNumber */
    method FindByNumber(number: int) returns (r: Option<string>)
      requires Valid() && ByNumber(kind)
      ensures forall e :: e in byNumber.Items() && e.number == AsWord(number) ==> r == Some(e.name)
      ensures r.None? <==> forall e :: e in byNumber.Items() ==> e.number != AsWord(number)
    {
      SameNameSameNumber();
      var found := byNumber.Find(Entry("", AsWord(number)));
      match found {
        case None => r := None;
        case Some(entry) =>
          forall e | e in byNumber.Items() && e.number == AsWord(number) ensures e == entry {
            ItemsApart(NumberKeys(), byNumber.chains, e, entry);
          }
          r := Some(entry.name);
      }
    }

    /** wordMap_deleteByName; its first assertion is the precondition. */
    method DeleteByName(name: string) returns (ghost entry: Entry)
      requires Valid() && Agree() && ByName(kind) && HasName(byName.Items(), name)
      modifies byName`elementCount, byName`chains, byName.infoArray, NodesOf(byName.chains)
      modifies byNumber`elementCount, byNumber`chains, byNumber.infoArray, NodesOf(byNumber.chains)
      ensures Valid() && Agree() && entry in old(byName.Items()) && entry.name == name
      ensures byName.Items() == old(byName.Items()) - {entry} && byNumber.Items() == old(byNumber.Items()) - {entry}
      ensures NodesOf(byName.chains) <= old(NodesOf(byName.chains))
              && NodesOf(byNumber.chains) <= old(NodesOf(byNumber.chains))
    {
      var found := EntryOfName(byName, name);
      entry := found;
      DeleteBoth(byName, byNumber, ByNumber(kind), found);
    }

    /** wordMap_deleteByNumber; its first assertion is the precondition. */
    method DeleteByNumber(number: int) returns (ghost entry: Entry)
      requires Valid() && Agree() && ByNumber(kind) && HasNumber(byNumber.Items(), AsWord(number))
      modifies byName`elementCount, byName`chains, byName.infoArray, NodesOf(byName.chains)
      modifies byNumber`elementCount, byNumber`chains, byNumber.infoArray, NodesOf(byNumber.chains)
      ensures Valid() && Agree() && entry in old(byNumber.Items()) && entry.number == AsWord(number)
      ensures byName.Items() == old(byName.Items()) - {entry} && byNumber.Items() == old(byNumber.Items()) - {entry}
      ensures NodesOf(byName.chains) <= old(NodesOf(byName.chains))
              && NodesOf(byNumber.chains) <= old(NodesOf(byNumber.chains))
    {
      var found := EntryOfNumber(byNumber, AsWord(number));
      entry := found;
      DeleteBoth(byNumber, byName, ByName(kind), found);
    }
  }

  // ---------- saving and loading ----------

  /** The element under the cursor, which moves on. */
  method TakeElement<T(!new)>(cursor: Cursor<T>, ghost p: nat) returns (entry: T, past: bool)
    requires AllLinked(cursor.hashTable.infoArray, cursor.hashTable.chains)
    requires cursor.At(p) && p < |Flat(cursor.hashTable.chains)|
    modifies cursor
    ensures AllLinked(cursor.hashTable.infoArray, cursor.hashTable.chains)
    ensures cursor.At(p + 1) && entry == Flat(cursor.hashTable.chains)[p].data
    ensures past <==> p + 1 == |Flat(cursor.hashTable.chains)|
  {
    entry := cursor.GetElement(p);
    cursor.GoNext(p);
    past := cursor.PastLastElement(p + 1);
  }

  /** The loop of wordMap_save (212-223) over a cursor. */
  method SaveFrom<T(!new)>(cursor: Cursor<T>, write: T -> string) returns (lines: seq<string>)
    requires cursor.At(0) && AllLinked(cursor.hashTable.infoArray, cursor.hashTable.chains)
    modifies cursor
    ensures lines == WriteAll(write, Data(Flat(cursor.hashTable.chains)))
  {
    ghost var nodes, p := Flat(cursor.hashTable.chains), 0;
    lines := [];
    var past := cursor.PastLastElement(p);
    while !past
      invariant AllLinked(cursor.hashTable.infoArray, cursor.hashTable.chains)
      invariant nodes == Flat(cursor.hashTable.chains) && cursor.At(p)
      invariant p <= |nodes| && past == (p == |nodes|)
      invariant lines == Written(write, nodes, p)
      decreases |nodes| - p
    {
      var entry;
      entry, past := TakeElement(cursor, p);
      WriteOneMore(write, nodes, p);
      lines, p := lines + [write(entry)], p + 1;
    }
    assert Data(nodes)[..p] == Data(nodes);
  }

  method SaveEntries<T(!new)>(t: Table<T>, write: T -> string) returns (lines: seq<string>)
    requires AllLinked(t.infoArray, t.chains)
    ensures lines == WriteAll(write, Data(Flat(t.chains)))
  {
    var cursor := new Cursor(t);
    lines := SaveFrom(cursor, write);
  }

  ghost function Written<T>(write: T -> string, nodes: seq<Node<T>>, p: nat): seq<string>
    requires p <= |nodes|
  {
    WriteAll(write, Data(nodes)[..p])
  }

  lemma WriteOneMore<T>(write: T -> string, nodes: seq<Node<T>>, p: nat)
    requires p < |nodes|
    ensures Written(write, nodes, p + 1) == Written(write, nodes, p) + [write(nodes[p].data)]
  {
    DataAt(nodes, p);
    assert Data(nodes)[..p + 1][..p] == Data(nodes)[..p];
  }

  /** wordMap_save; its assertion on the kind is the precondition. */
  method Save(m: WordMap) returns (lines: seq<string>)
    requires m.Valid() && (ByName(m.kind) || ByNumber(m.kind))
    ensures lines == SavedLines(m.name, m.kind, Data(Flat((if ByName(m.kind) then m.byName else m.byNumber).chains)))
  {
    var hashTable := if ByName(m.kind) then m.byName else m.byNumber;
    var entries := SaveEntries(hashTable, EntryLine);
    lines := [IntToString(VERSION), m.name, IntToString(m.kind), IntToString(hashTable.elementCount)] + entries;
  }

  ghost function IndexedBy(keys: Keys<Entry>, asked: bool, entries: seq<Entry>): set<Entry> {
    if asked then Indexed(keys, entries) else {}
  }

  ghost predicate Holds(m: WordMap, entries: seq<Entry>)
    reads m, m.byName, m.byNumber
  {
    && m.byName.Items() == IndexedBy(NameKeys(), ByName(m.kind), entries)
    && m.byNumber.Items() == IndexedBy(NumberKeys(), ByNumber(m.kind), entries)
  }

  lemma ReadOneMore<T>(read: string -> Option<T>, lines: seq<string>, i: nat)
    requires i < |lines|
    ensures ReadAll(read, lines[..i + 1]) ==
            var front := ReadAll(read, lines[..i]);
            if front == None || read(lines[i]) == None then None else Some(front.value + [read(lines[i]).value])
  {
    assert lines[..i + 1][..i] == lines[..i];
  }

  lemma {:induction false} ReadPrefix<T>(read: string -> Option<T>, lines: seq<string>, i: nat)
    requires i <= |lines| && ReadAll(read, lines[..i]) == None
    ensures ReadAll(read, lines) == None
    decreases |lines| - i
  {
    if i < |lines| {
      ReadOneMore(read, lines, i);
      ReadPrefix(read, lines, i + 1);
    } else {
      assert lines[..i] == lines;
    }
  }

  /** The body of the loop of wordMap_createFromString (391-399). FALSE stands for a line without
      a space, whose name is NULL and is duplicated all the same. */
  method LoadEntry(m: WordMap, line: string, ghost entries: seq<Entry>)
    returns (ok: bool, ghost e: Entry, ghost added: set<Node<Entry>>)
    requires m.Valid() && Holds(m, entries)
    modifies m.byName`elementCount, m.byName`chains, m.byName.infoArray
    modifies m.byNumber`elementCount, m.byNumber`chains, m.byNumber.infoArray
    ensures ReadEntry(line) == if ok then Some(e) else None
    ensures ok ==> m.Valid() && Holds(m, entries + [e])
    ensures fresh(added) && NodesOf(m.byName.chains) <= old(NodesOf(m.byName.chains)) + added
    ensures NodesOf(m.byNumber.chains) <= old(NodesOf(m.byNumber.chains)) + added
  {
    var cut := Strsep(Some(line), {' '});
    if cut.rest == None {
      return false, Entry("", 0), {};
    }
    ghost var names, numbers := NodesOf(m.byName.chains), NodesOf(m.byNumber.chains);
    e := ReadEntry(line).value;
    assert (entries + [e])[..|entries|] == entries;
    m.AddEntry(cut.rest.value, Atoi(cut.token.value));
    added := (NodesOf(m.byName.chains) - names) + (NodesOf(m.byNumber.chains) - numbers);
    ok := true;
  }

  /** The loop of wordMap_createFromString (385-400), into a new map. */
  method LoadEntries(m: WordMap, lines: seq<string>) returns (ok: bool)
    requires m.Valid() && m.byName.Items() == {} && m.byNumber.Items() == {}
    requires NodesOf(m.byName.chains) == {} && NodesOf(m.byNumber.chains) == {}
    modifies m.byName`elementCount, m.byName`chains, m.byName.infoArray
    modifies m.byNumber`elementCount, m.byNumber`chains, m.byNumber.infoArray
    ensures ok <==> ReadAll(ReadEntry, lines).Some?
    ensures ok ==> m.Valid() && Holds(m, ReadAll(ReadEntry, lines).value)
    ensures fresh(NodesOf(m.byName.chains)) && fresh(NodesOf(m.byNumber.chains))
  {
    ghost var entries: seq<Entry>, nodes: set<Node<Entry>> := [], {};
    var i := 0;
    ok := true;
    while i < |lines| && ok
      invariant i <= |lines| && (ok ==> m.Valid() && Holds(m, entries))
      invariant ReadSoFar(lines, i, if ok then Some(entries) else None)
      invariant fresh(nodes) && NodesOf(m.byName.chains) <= nodes && NodesOf(m.byNumber.chains) <= nodes
    {
      ghost var e, added;
      ok, e, added := LoadEntry(m, lines[i], entries);
      nodes := nodes + added;
      ReadsNext(lines, i, entries, if ok then Some(e) else None);
      entries, i := entries + [e], i + 1;
    }
    ReadsToTheEnd(lines, i, if ok then Some(entries) else None);
  }

  ghost predicate ReadSoFar(lines: seq<string>, i: nat, entries: Option<seq<Entry>>)
    requires i <= |lines|
  {
    ReadAll(ReadEntry, lines[..i]) == entries
  }

  lemma ReadsNext(lines: seq<string>, i: nat, entries: seq<Entry>, e: Option<Entry>)
    requires i < |lines| && ReadSoFar(lines, i, Some(entries)) && ReadEntry(lines[i]) == e
    ensures ReadSoFar(lines, i + 1, if e == None then None else Some(entries + [e.value]))
  {
    ReadOneMore(ReadEntry, lines, i);
  }

  lemma ReadsToTheEnd(lines: seq<string>, i: nat, entries: Option<seq<Entry>>)
    requires i <= |lines| && ReadSoFar(lines, i, entries) && (entries.Some? ==> i == |lines|)
    ensures ReadAll(ReadEntry, lines) == entries
  {
    if entries == None {
      ReadPrefix(ReadEntry, lines, i);
    } else {
      assert lines[..i] == lines;
    }
  }

  datatype Created = Created(m: WordMap) | Refused | Crashed

  /** What a reading makes of the map built. */
  ghost predicate Builds(reading: Reading, r: Created)
    reads if r.Created? then {r.m, r.m.byName, r.m.byNumber} else {}
  {
    match reading
    case Reading(name, kind, entries) => r.Created? && r.m.name == name && r.m.kind == kind && Holds(r.m, entries)
    case Unsupported(_) => r.Refused?
    case Crash => r.Crashed?
  }

  /** The size of the tables: the count as an unsigned int. Tables that the kind does not ask for
      get one slot here. */
  function TableSize(count: int): (size: nat)
    ensures size > 0
  {
    if count % WORD == 0 then 1 else count % WORD
  }

  /** The part of wordMap_createFromString after the header (383-403). */
  method CreateBody(name: string, kind: int, count: int, lines: seq<string>) returns (r: Created)
    ensures Builds(ReadBody(name, kind, count, lines), r)
    ensures r.Created? ==> r.m.Valid() && fresh(r.m.byName) && fresh(r.m.byName.infoArray)
                           && fresh(NodesOf(r.m.byName.chains))
    ensures r.Created? ==> fresh(r.m.byNumber) && fresh(r.m.byNumber.infoArray) && fresh(NodesOf(r.m.byNumber.chains))
  {
    if (count == 0 && (ByName(kind) || ByNumber(kind))) || |lines| < count {
      return Crashed;
    }
    var m := new WordMap(name, kind, TableSize(count));
    if count <= 0 {
      return Created(m);
    }
    var ok := LoadEntries(m, lines[..count]);
    r := if ok then Created(m) else Crashed;
  }

  /** wordMap_createFromString */
  method CreateFromString(lines: seq<string>) returns (r: Created)
    ensures Builds(ReadLines(lines), r)
    ensures r.Created? ==> r.m.Valid() && fresh(r.m.byName) && fresh(r.m.byName.infoArray)
                           && fresh(NodesOf(r.m.byName.chains))
    ensures r.Created? ==> fresh(r.m.byNumber) && fresh(r.m.byNumber.infoArray) && fresh(NodesOf(r.m.byNumber.chains))
  {
    if |lines| < 2 {
      return Crashed;
    }
    match Atoi(lines[0]) {
      case 1 =>
        if |lines| < 3 {
          return Crashed;
        }
        r := CreateBody(lines[1], WORDMAP_BYNAME_NUMBER, Atoi(lines[2]), lines[3..]);
      case 2 =>
        if |lines| < 4 {
          return Crashed;
        }
        r := CreateBody(lines[1], Atoi(lines[2]), Atoi(lines[3]), lines[4..]);
      case _ => r := Refused;
    }
  }

  /** Entries met by a traversal all get into an index that tells apart whatever the table does. */
  lemma TraversalIndexes(keys: Keys<Entry>, chains: Chains<Entry>, index: Keys<Entry>)
    requires Sound(keys) && |chains| > 0 && AllPlaced(keys, chains)
    requires forall e, f :: e in ItemsOf(chains) && f in ItemsOf(chains) && index.Same(e, f) ==> keys.Same(e, f)
    ensures Indexed(index, Data(Flat(chains))) == ItemsOf(chains)
  {
    var entries := Data(Flat(chains));
    forall p | 0 <= p < |entries| ensures entries[p] == Flat(chains)[p].data && entries[p] in ItemsOf(chains) {
      DataAt(Flat(chains), p);
      TraversalMeetsAll(chains, Flat(chains)[p].data);
    }
    forall i, j | 0 <= i < j < |entries| ensures !index.Same(entries[j], entries[i]) {
      TraversalMeetsOnce(keys, chains, j, i);
    }
    AllIndexed(index, entries);
    forall e ensures e in entries <==> e in ItemsOf(chains) {
      TraversalMeetsAll(chains, e);
    }
  }

  /** Saving a map and creating one from the lines gives the same map back, unless it is empty. */
  method Reload(m: WordMap) returns (r: Created)
    requires m.Valid() && m.Agree() && (ByName(m.kind) || ByNumber(m.kind))
    ensures r.Created? ==> r.m.Valid() && fresh(r.m.byName) && fresh(r.m.byName.infoArray)
                           && fresh(NodesOf(r.m.byName.chains))
    ensures r.Created? ==> fresh(r.m.byNumber) && fresh(r.m.byNumber.infoArray) && fresh(NodesOf(r.m.byNumber.chains))
    ensures m.byName.Items() + m.byNumber.Items() == {} ==> r.Crashed?
    ensures m.byName.Items() + m.byNumber.Items() != {} ==>
              && r.Created? && r.m.name == m.name && r.m.kind == m.kind
              && r.m.byName.Items() == m.byName.Items() && r.m.byNumber.Items() == m.byNumber.Items()
  {
    var lines, reading := SaveReadably(m);
    r := CreateFromString(lines);
    Rebuilt(m, reading, r);
  }

  method SaveReadably(m: WordMap) returns (lines: seq<string>, ghost reading: Reading)
    requires m.Valid() && m.Agree() && (ByName(m.kind) || ByNumber(m.kind))
    ensures reading == ReadLines(lines) && Faithful(m, reading)
  {
    ghost var entries := SavedReading(m);
    lines := Save(m);
    reading := ReadLines(lines);
  }

  /** A reading from which the map can be built again. */
  ghost predicate Faithful(m: WordMap, reading: Reading)
    reads m, m.byName, m.byNumber
  {
    if m.byName.Items() + m.byNumber.Items() == {} then reading == Crash
    else reading.Reading? && reading.name == m.name && reading.kind == m.kind && Holds(m, reading.entries)
  }

  lemma Rebuilt(m: WordMap, reading: Reading, r: Created)
    requires Faithful(m, reading) && Builds(reading, r)
    ensures m.byName.Items() + m.byNumber.Items() == {} ==> r.Crashed?
    ensures m.byName.Items() + m.byNumber.Items() != {} ==>
              && r.Created? && r.m.name == m.name && r.m.kind == m.kind
              && r.m.byName.Items() == m.byName.Items() && r.m.byNumber.Items() == m.byNumber.Items()
  {
  }

  lemma SavedReading(m: WordMap) returns (entries: seq<Entry>)
    requires m.Valid() && m.Agree() && (ByName(m.kind) || ByNumber(m.kind))
    ensures entries == Data(Flat((if ByName(m.kind) then m.byName else m.byNumber).chains))
    ensures entries == [] <==> m.byName.Items() + m.byNumber.Items() == {}
    ensures ReadLines(SavedLines(m.name, m.kind, entries)) ==
            if entries == [] then Crash else Reading(m.name, m.kind, entries)
    ensures Holds(m, entries)
  {
    var t := if ByName(m.kind) then m.byName else m.byNumber;
    entries := Data(Flat(t.chains));
    ReadUndoesSave(m.name, m.kind, entries);
    CountIsSize(t.keys, t.chains);
    SavedIndexes(m);
  }

  lemma SavedIndexes(m: WordMap)
    requires m.Valid() && m.Agree()
    ensures Holds(m, Data(Flat((if ByName(m.kind) then m.byName else m.byNumber).chains)))
  {
    SameNameSameNumber();
    if ByName(m.kind) {
      TraversalIndexes(NameKeys(), m.byName.chains, NameKeys());
      if ByNumber(m.kind) {
        m.AgreeingIsInverse();
        TraversalIndexes(NameKeys(), m.byName.chains, NumberKeys());
      }
    } else if ByNumber(m.kind) {
      TraversalIndexes(NumberKeys(), m.byNumber.chains, NumberKeys());
    }
  }
}
