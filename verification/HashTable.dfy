/**
  The chained hash table of src/hash.c. What its clients rely on is a finite set with no two
  equivalent elements: a map up to the equivalence that the compare function decides.
 */
module HashTable {
  import opened Wrappers

  /** The functions given to HashCreateTable. */
  datatype Keys<!T> = Keys(calcIndx: T -> int, compData: (T, T) -> int) {
    predicate Same(x: T, y: T) { compData(x, y) == 0 }

    /** The C expression calcIndx(x) % size, an int converted to a 32-bit unsigned. */
    function Bucket(x: T, size: nat): (h: nat)
      requires size > 0
      ensures h < size
    {
      calcIndx(x) % 0x1_0000_0000 % size
    }

    /** A negative index is 2^32 more when it is divided. */
    lemma BucketOfIndex(x: T, size: nat)
      requires size > 0 && -0x8000_0000 <= calcIndx(x) < 0x8000_0000
      ensures Bucket(x, size) == (calcIndx(x) + if calcIndx(x) < 0 then 0x1_0000_0000 else 0) % size
    {}
  }

  /** What the table demands of its clients: compare is an equivalence that hash respects. */
  ghost predicate Sound<T(!new)>(keys: Keys<T>) {
    && (forall x :: keys.Same(x, x))
    && (forall x, y :: keys.Same(x, y) ==> keys.Same(y, x))
    && (forall x, y, z {:trigger keys.Same(x, y), keys.Same(y, z)} ::
          keys.Same(x, y) && keys.Same(y, z) ==> keys.Same(x, z))
    && (forall x, y :: keys.Same(x, y) ==> keys.calcIndx(x) == keys.calcIndx(y))
  }

  class Node<T> {
    const data: T
    var next: Node?<T>

    constructor (data: T, next: Node?<T>)
      ensures this.data == data && this.next == next
    {
      this.data, this.next := data, next;
    }
  }

  type Chains<T> = seq<seq<Node<T>>>

  /** The nodes in the order in which a cursor meets them. */
  ghost function Flat<T>(chains: Chains<T>): seq<Node<T>> {
    if chains == [] then [] else Flat(chains[..|chains| - 1]) + chains[|chains| - 1]
  }

  ghost function NodesOf<T>(chains: Chains<T>): set<Node<T>> {
    set i, j | 0 <= i < |chains| && 0 <= j < |chains[i]| :: chains[i][j]
  }

  ghost function ItemsOf<T>(chains: Chains<T>): set<T> {
    set i, j | 0 <= i < |chains| && 0 <= j < |chains[i]| :: chains[i][j].data
  }

  /** Chain i holds only elements of bucket i, no two of them equivalent. */
  ghost predicate Placed<T>(keys: Keys<T>, size: nat, i: nat, chain: seq<Node<T>>)
    requires size > 0
  {
    && (forall j :: 0 <= j < |chain| ==> keys.Bucket(chain[j].data, size) == i)
    && (forall j, k :: 0 <= j < k < |chain| ==> !keys.Same(chain[j].data, chain[k].data))
  }

  ghost predicate AllPlaced<T>(keys: Keys<T>, chains: Chains<T>)
    requires |chains| > 0
  {
    forall i :: 0 <= i < |chains| ==> Placed(keys, |chains|, i, chains[i])
  }

  ghost predicate Proper<T(!new)>(keys: Keys<T>, chains: Chains<T>, elementCount: int) {
    Sound(keys) && |chains| > 0 && AllPlaced(keys, chains) && elementCount == |Flat(chains)|
  }

  /** `chain` is the list of nodes reached from `first`. */
  ghost predicate Linked<T>(first: Node?<T>, chain: seq<Node<T>>)
    reads chain
  {
    && first == (if chain == [] then null else chain[0])
    && (forall j {:trigger chain[j]} :: 0 <= j < |chain| ==>
          chain[j].next == (if j + 1 < |chain| then chain[j + 1] else null))
  }

  ghost predicate AllLinked<T>(infoArray: array<Node?<T>>, chains: Chains<T>)
    reads infoArray, NodesOf(chains)
  {
    && |chains| == infoArray.Length
    && forall i :: 0 <= i < |chains| ==> Linked(infoArray[i], chains[i])
  }

  // ---------- the pure side: chains as values ----------

  /** Equivalent elements of a table are one and the same node. */
  lemma OneNode<T(!new)>(keys: Keys<T>, chains: Chains<T>, i: nat, j: nat, i': nat, j': nat)
    requires Sound(keys) && |chains| > 0 && AllPlaced(keys, chains)
    requires i < |chains| && j < |chains[i]| && i' < |chains| && j' < |chains[i']|
    ensures keys.Same(chains[i][j].data, chains[i'][j'].data) <==> i == i' && j == j'
  {
    assert Placed(keys, |chains|, i, chains[i]) && Placed(keys, |chains|, i', chains[i']);
  }

  /** An element equivalent to x is in the table exactly if one is in x's own chain. */
  lemma InOwnBucket<T(!new)>(keys: Keys<T>, chains: Chains<T>, x: T)
    requires Sound(keys) && |chains| > 0 && AllPlaced(keys, chains)
    ensures (exists e :: e in ItemsOf(chains) && keys.Same(x, e)) <==>
            exists j :: 0 <= j < |chains[keys.Bucket(x, |chains|)]| &&
                        keys.Same(x, chains[keys.Bucket(x, |chains|)][j].data)
  {
    var h := keys.Bucket(x, |chains|);
    if e :| e in ItemsOf(chains) && keys.Same(x, e) {
      var i, j :| 0 <= i < |chains| && 0 <= j < |chains[i]| && chains[i][j].data == e;
      assert Placed(keys, |chains|, i, chains[i]);
      assert keys.Same(x, chains[h][j].data);
    }
    if j :| 0 <= j < |chains[h]| && keys.Same(x, chains[h][j].data) {
      assert chains[h][j].data in ItemsOf(chains);
    }
  }

  lemma {:induction false} FlatUpdate<T>(chains: Chains<T>, h: nat, chain: seq<Node<T>>)
    requires h < |chains|
    ensures |Flat(chains[h := chain])| == |Flat(chains)| - |chains[h]| + |chain|
  {
    var n, chains' := |chains| - 1, chains[h := chain];
    if h < n {
      FlatUpdate(chains[..n], h, chain);
      assert chains'[..n] == chains[..n][h := chain];
    } else {
      assert chains'[..n] == chains[..n];
    }
  }

  lemma {:induction false} FlatPrefix<T>(chains: Chains<T>, k: nat)
    requires k <= |chains|
    ensures Flat(chains[..k]) <= Flat(chains)
  {
    var n := |chains| - 1;
    if k <= n {
      FlatPrefix(chains[..n], k);
      assert chains[..n][..k] == chains[..k];
    } else {
      assert chains[..k] == chains;
    }
  }

  /** Where chain i starts in the traversal. */
  lemma FlatAt<T>(chains: Chains<T>, i: nat)
    requires i < |chains|
    ensures Flat(chains[..i + 1]) == Flat(chains[..i]) + chains[i]
    ensures |Flat(chains[..i])| + |chains[i]| <= |Flat(chains)|
    ensures forall j {:trigger chains[i][j]} :: 0 <= j < |chains[i]| ==>
              Flat(chains)[|Flat(chains[..i])| + j] == chains[i][j]
  {
    FlatOneMore(chains, i);
    FlatPrefix(chains, i + 1);
    InPrefix(Flat(chains), Flat(chains[..i]), chains[i]);
  }

  lemma FlatOneMore<T>(chains: Chains<T>, i: nat)
    requires i < |chains|
    ensures Flat(chains[..i + 1]) == Flat(chains[..i]) + chains[i]
  {
    assert chains[..i + 1][..i] == chains[..i];
  }

  lemma InPrefix<T>(flat: seq<T>, front: seq<T>, chain: seq<T>)
    requires front + chain <= flat
    ensures |front| + |chain| <= |flat|
    ensures forall j {:trigger chain[j]} :: 0 <= j < |chain| ==> flat[|front| + j] == chain[j]
  {
    forall j | 0 <= j < |chain| ensures flat[|front| + j] == chain[j] {
      assert (front + chain)[|front| + j] == chain[j];
    }
  }

  /** Every position of the traversal lies in some chain. */
  lemma {:induction false} FlatFrom<T>(chains: Chains<T>, p: nat) returns (i: nat, j: nat)
    requires p < |Flat(chains)|
    ensures i < |chains| && j < |chains[i]| && p == |Flat(chains[..i])| + j
    ensures Flat(chains)[p] == chains[i][j]
  {
    var n := |chains| - 1;
    if p < |Flat(chains[..n])| {
      i, j := FlatFrom(chains[..n], p);
      assert chains[..n][..i] == chains[..i];
    } else {
      i, j := n, p - |Flat(chains[..n])|;
    }
  }

  /** A traversal meets no element twice, not even an equivalent one. */
  lemma TraversalMeetsOnce<T(!new)>(keys: Keys<T>, chains: Chains<T>, p: nat, q: nat)
    requires Sound(keys) && |chains| > 0 && AllPlaced(keys, chains)
    requires p < |Flat(chains)| && q < |Flat(chains)|
    ensures keys.Same(Flat(chains)[p].data, Flat(chains)[q].data) <==> p == q
  {
    var i, j := FlatFrom(chains, p);
    var i', j' := FlatFrom(chains, q);
    OneNode(keys, chains, i, j, i', j');
  }

  /** A traversal meets the elements of the table, all of them and nothing else. */
  lemma TraversalMeetsAll<T>(chains: Chains<T>, e: T)
    ensures e in ItemsOf(chains) <==> exists p :: 0 <= p < |Flat(chains)| && Flat(chains)[p].data == e
  {
    if e in ItemsOf(chains) {
      var i, j :| 0 <= i < |chains| && 0 <= j < |chains[i]| && chains[i][j].data == e;
      FlatAt(chains, i);
      assert Flat(chains)[|Flat(chains[..i])| + j].data == e;
    }
    if p :| 0 <= p < |Flat(chains)| && Flat(chains)[p].data == e {
      var i, j := FlatFrom(chains, p);
    }
  }

  ghost function DataOf<T>(s: seq<Node<T>>): set<T> { set p | 0 <= p < |s| :: s[p].data }

  lemma {:induction false} CountDistinct<T>(keys: Keys<T>, s: seq<Node<T>>)
    requires forall p :: 0 <= p < |s| ==> keys.Same(s[p].data, s[p].data)
    requires forall p, q :: 0 <= p < q < |s| ==> !keys.Same(s[p].data, s[q].data)
    ensures |DataOf(s)| == |s|
  {
    if s != [] {
      var n := |s| - 1;
      CountDistinct(keys, s[..n]);
      assert DataOf(s) == DataOf(s[..n]) + {s[n].data};
    }
  }

  /** elementCount, the total length of the chains, is the number of elements. */
  lemma CountIsSize<T(!new)>(keys: Keys<T>, chains: Chains<T>)
    requires Sound(keys) && |chains| > 0 && AllPlaced(keys, chains)
    ensures |ItemsOf(chains)| == |Flat(chains)|
  {
    var s := Flat(chains);
    forall p, q | 0 <= p < |s| && 0 <= q < |s| ensures keys.Same(s[p].data, s[q].data) <==> p == q {
      TraversalMeetsOnce(keys, chains, p, q);
    }
    CountDistinct(keys, s);
    ItemsAreData(chains);
  }

  lemma ItemsAreData<T>(chains: Chains<T>)
    ensures ItemsOf(chains) == DataOf(Flat(chains))
  {
    var s := Flat(chains);
    forall e | e in ItemsOf(chains) ensures e in DataOf(s) {
      TraversalMeetsAll(chains, e);
      var p :| 0 <= p < |s| && s[p].data == e;
    }
    forall e | e in DataOf(s) ensures e in ItemsOf(chains) {
      var p :| 0 <= p < |s| && s[p].data == e;
      var i, j := FlatFrom(chains, p);
      assert chains[i][j].data == e;
    }
  }

  lemma Put<T(!new)>(keys: Keys<T>, chains: Chains<T>, node: Node<T>)
    requires Sound(keys) && |chains| > 0 && AllPlaced(keys, chains)
    requires forall e :: e in ItemsOf(chains) ==> !keys.Same(node.data, e)
    ensures var h := keys.Bucket(node.data, |chains|);
            var chains' := chains[h := [node] + chains[h]];
            AllPlaced(keys, chains') && ItemsOf(chains') == ItemsOf(chains) + {node.data}
            && |Flat(chains')| == |Flat(chains)| + 1
            && forall i :: 0 <= i < |chains| ==> node !in chains[i]
  {
    var h := keys.Bucket(node.data, |chains|);
    var chain := [node] + chains[h];
    var chains' := chains[h := chain];
    FlatUpdate(chains, h, chain);
    forall i, j | 0 <= i < |chains| && 0 <= j < |chains[i]|
      ensures !keys.Same(node.data, chains[i][j].data) && chains[i][j] != node
    {
      assert chains[i][j].data in ItemsOf(chains);
    }
    forall i | 0 <= i < |chains'| ensures Placed(keys, |chains'|, i, chains'[i]) {
      assert Placed(keys, |chains|, i, chains[i]);
    }
    forall e | e in ItemsOf(chains) ensures e in ItemsOf(chains') {
      var i, j :| 0 <= i < |chains| && 0 <= j < |chains[i]| && chains[i][j].data == e;
      assert chains'[i][if i == h then j + 1 else j].data == e;
    }
    assert chains'[h][0] == node;
  }

  ghost function Without<T>(keys: Keys<T>, items: set<T>, x: T): set<T> {
    set e | e in items && !keys.Same(x, e)
  }

  ghost function Dropping<T>(chains: Chains<T>, h: nat, j: nat): Chains<T>
    requires h < |chains| && j < |chains[h]|
  {
    chains[h := chains[h][..j] + chains[h][j + 1..]]
  }

  lemma DropPlaced<T(!new)>(keys: Keys<T>, chains: Chains<T>, h: nat, j: nat)
    requires |chains| > 0 && AllPlaced(keys, chains) && h < |chains| && j < |chains[h]|
    ensures AllPlaced(keys, Dropping(chains, h, j))
    ensures |Flat(Dropping(chains, h, j))| == |Flat(chains)| - 1
  {
    var chains': Chains<T> := Dropping(chains, h, j);
    FlatUpdate(chains, h, chains'[h]);
    forall i | 0 <= i < |chains'| ensures Placed(keys, |chains'|, i, chains'[i]) {
      assert Placed(keys, |chains|, i, chains[i]);
    }
  }

  lemma DropItems<T(!new)>(keys: Keys<T>, chains: Chains<T>, h: nat, j: nat, x: T)
    requires Sound(keys) && |chains| > 0 && AllPlaced(keys, chains)
    requires h < |chains| && j < |chains[h]| && keys.Same(x, chains[h][j].data)
    ensures ItemsOf(Dropping(chains, h, j)) == Without(keys, ItemsOf(chains), x)
  {
    var chains': Chains<T> := Dropping(chains, h, j);
    forall i, k | 0 <= i < |chains'| && 0 <= k < |chains'[i]|
      ensures chains'[i][k].data in Without(keys, ItemsOf(chains), x)
    {
      var k0 := if i == h && k >= j then k + 1 else k;
      assert chains[i][k0] == chains'[i][k];
      OneNode(keys, chains, i, k0, h, j);
    }
    forall e | e in Without(keys, ItemsOf(chains), x) ensures e in ItemsOf(chains') {
      var i, k :| 0 <= i < |chains| && 0 <= k < |chains[i]| && chains[i][k].data == e;
      assert chains'[i][if i == h && k > j then k - 1 else k].data == e;
    }
  }

  // ---------- the links ----------

  ghost predicate NodeApart<T>(chains: Chains<T>, h: nat, j: nat)
    requires h < |chains| && j < |chains[h]|
  {
    && (forall k :: 0 <= k < |chains[h]| && k != j ==> chains[h][k] != chains[h][j])
    && (forall i :: 0 <= i < |chains| && i != h ==> chains[h][j] !in chains[i])
  }

  ghost predicate NodesApart<T>(chains: Chains<T>, h: nat)
    requires h < |chains|
  {
    forall j :: 0 <= j < |chains[h]| ==> NodeApart(chains, h, j)
  }

  lemma Apart<T(!new)>(keys: Keys<T>, chains: Chains<T>, h: nat)
    requires Sound(keys) && |chains| > 0 && AllPlaced(keys, chains) && h < |chains|
    ensures NodesApart(chains, h)
  {
    forall j, i, k | 0 <= j < |chains[h]| && 0 <= i < |chains| && 0 <= k < |chains[i]|
      ensures chains[i][k] == chains[h][j] ==> i == h && k == j
    {
      OneNode(keys, chains, i, k, h, j);
    }
  }

  /** A node linked in front of a chain, as HashAdd does. */
  method LinkFirst<T>(infoArray: array<Node?<T>>, ghost chains: Chains<T>, h: nat, x: T) returns (newInfo: Node<T>)
    requires AllLinked(infoArray, chains) && h < |chains|
    modifies infoArray
    ensures fresh(newInfo) && newInfo.data == x
    ensures AllLinked(infoArray, chains[h := [newInfo] + chains[h]])
  {
    newInfo := new Node(x, infoArray[h]);
    infoArray[h] := newInfo;
    ghost var chains' := chains[h := [newInfo] + chains[h]];
    forall i | 0 <= i < |chains'| ensures Linked(infoArray[i], chains'[i]) {
      assert Linked(old(infoArray[i]), chains[i]);
    }
  }

  /** The first record of a chain unlinked (271-280, 313-327). */
  method UnlinkFirst<T>(infoArray: array<Node?<T>>, ghost chains: Chains<T>, h: nat) returns (toTrash: Node<T>)
    requires AllLinked(infoArray, chains) && h < |chains| && chains[h] != []
    modifies infoArray
    ensures toTrash == chains[h][0] && AllLinked(infoArray, Dropping(chains, h, 0))
  {
    assert Linked(infoArray[h], chains[h]);
    toTrash := infoArray[h];
    infoArray[h] := toTrash.next;
    ghost var chains' := Dropping(chains, h, 0);
    assert chains'[h] == chains[h][1..];
    forall i | 0 <= i < |chains'| ensures Linked(infoArray[i], chains'[i]) {
      assert Linked(old(infoArray[i]), chains[i]);
    }
  }

  /** A later record of a chain unlinked (288-295, 335-350). */
  method UnlinkNext<T>(infoArray: array<Node?<T>>, ghost chains: Chains<T>, ghost h: nat, tmp: Node<T>, ghost j: nat)
    returns (toTrash: Node<T>)
    requires AllLinked(infoArray, chains) && h < |chains| && j + 1 < |chains[h]| && tmp == chains[h][j]
    requires NodeApart(chains, h, j)
    modifies tmp
    ensures toTrash == chains[h][j + 1] && AllLinked(infoArray, Dropping(chains, h, j + 1))
  {
    assert Linked(infoArray[h], chains[h]);
    toTrash := BypassNext(tmp, infoArray[h], chains[h], j);
    ghost var chains' := Dropping(chains, h, j + 1);
    forall i | 0 <= i < |chains'| ensures Linked(infoArray[i], chains'[i]) {
      if i != h { assert old(Linked(infoArray[i], chains[i])); }
    }
  }

  /** Unlinking the successor of node j of a single chain. */
  method BypassNext<T>(tmp: Node<T>, ghost first: Node?<T>, ghost chain: seq<Node<T>>, ghost j: nat)
    returns (toTrash: Node<T>)
    requires Linked(first, chain) && j + 1 < |chain| && tmp == chain[j]
    requires forall k :: 0 <= k < |chain| && k != j ==> chain[k] != tmp
    modifies tmp
    ensures toTrash == chain[j + 1] && Linked(first, chain[..j + 1] + chain[j + 2..])
  {
    toTrash := tmp.next;
    tmp.next := toTrash.next;
    ghost var rest := chain[..j + 1] + chain[j + 2..];
    forall k | 0 <= k < |rest| ensures rest[k].next == if k + 1 < |rest| then rest[k + 1] else null {
      assert rest[k] == chain[if k <= j then k else k + 1];
    }
  }

  /** The search for a later match (283-286, 330-333): it stops in front of the first match,
      or on the last record. */
  method FindBefore<T>(keys: Keys<T>, first: Node<T>, ghost chain: seq<Node<T>>, x: T)
    returns (tmp: Node<T>, ghost j: nat)
    requires Linked(first, chain) && !keys.Same(first.data, x)
    ensures j < |chain| && tmp == chain[j]
    ensures forall k :: 0 <= k <= j ==> !keys.Same(chain[k].data, x)
    ensures tmp.next == (if j + 1 < |chain| then chain[j + 1] else null)
    ensures j + 1 < |chain| ==> keys.Same(chain[j + 1].data, x)
  {
    tmp, j := first, 0;
    while tmp.next != null && keys.compData(tmp.next.data, x) != 0
      invariant j < |chain| && tmp == chain[j]
      invariant forall k :: 0 <= k <= j ==> !keys.Same(chain[k].data, x)
      invariant Linked(first, chain)
      decreases |chain| - j
    {
      tmp, j := tmp.next, j + 1;
    }
  }

  /** What finding and unlinking the record of x in chain h does to the chains. */
  ghost predicate Unlinked<T>(keys: Keys<T>, chains: Chains<T>, x: T, h: nat, toTrash: Node?<T>, chains': Chains<T>)
    requires h < |chains|
  {
    if toTrash == null then
      chains' == chains && forall k :: 0 <= k < |chains[h]| ==> !keys.Same(chains[h][k].data, x)
    else
      exists j :: 0 <= j < |chains[h]| && toTrash == chains[h][j] && keys.Same(toTrash.data, x)
                  && chains' == Dropping(chains, h, j)
  }

  /** Finding and unlinking the record, as HashDelete and HashDestroy both do. */
  method Unlink<T>(keys: Keys<T>, infoArray: array<Node?<T>>, ghost chains: Chains<T>, x: T, h: nat)
    returns (toTrash: Node?<T>, ghost chains': Chains<T>)
    requires AllLinked(infoArray, chains) && h < infoArray.Length
    requires NodesApart(chains, h)
    modifies infoArray, NodesOf(chains)
    ensures AllLinked(infoArray, chains') && Unlinked(keys, chains, x, h, toTrash, chains')
  {
    assert Linked(infoArray[h], chains[h]);
    if infoArray[h] == null {
      return null, chains;
    }
    if keys.compData(infoArray[h].data, x) == 0 {
      toTrash := UnlinkFirst(infoArray, chains, h);
      chains' := Dropping(chains, h, 0);
    } else {
      var tmp, j := FindBefore(keys, infoArray[h], chains[h], x);
      if tmp.next == null {
        return null, chains;
      }
      assert NodeApart(chains, h, j);
      toTrash := UnlinkNext(infoArray, chains, h, tmp, j);
      chains' := Dropping(chains, h, j + 1);
    }
  }

  /** The records are unlinked, and so the elements equivalent to x, and no others, are gone. */
  lemma Deletes<T(!new)>(keys: Keys<T>, chains: Chains<T>, elementCount: int, x: T, toTrash: Node?<T>,
                         chains': Chains<T>)
    requires Proper(keys, chains, elementCount)
    requires Unlinked(keys, chains, x, keys.Bucket(x, |chains|), toTrash, chains')
    ensures Proper(keys, chains', if toTrash == null then elementCount else elementCount - 1)
    ensures ItemsOf(chains') == Without(keys, ItemsOf(chains), x) && NodesOf(chains') <= NodesOf(chains)
    ensures toTrash == null ==> chains' == chains
    ensures toTrash != null ==> toTrash.data in ItemsOf(chains) && keys.Same(x, toTrash.data)
  {
    var h := keys.Bucket(x, |chains|);
    if toTrash == null {
      InOwnBucket(keys, chains, x);
    } else {
      var j :| 0 <= j < |chains[h]| && toTrash == chains[h][j] && keys.Same(toTrash.data, x)
               && chains' == Dropping(chains, h, j);
      DropPlaced(keys, chains, h, j);
      DropItems(keys, chains, h, j, x);
    }
  }

  // ---------- the table itself ----------

  class Table<T(!new)> {
    const keys: Keys<T>
    const infoArray: array<Node?<T>>
    var elementCount: int
    ghost var chains: Chains<T>

    ghost predicate Valid()
      reads this, infoArray, NodesOf(chains)
    {
      && Proper(keys, chains, elementCount)
      && AllLinked(infoArray, chains)
    }

    ghost function Items(): set<T>
      reads this
    {
      ItemsOf(chains)
    }

    /** HashCreateTable; its assertion is the precondition. */
    constructor (size: nat, keys: Keys<T>)
      requires size != 0 && Sound(keys)
      ensures Valid() && Items() == {} && this.keys == keys && fresh(infoArray) && NodesOf(chains) == {}
    {
      this.keys := keys;
      infoArray := new Node?<T>[size](_ => null);
      elementCount := 0;
      chains := seq(size, _ => []);
      FlatEmpty<T>(size);
    }

    /** FindInfo: the node of an element equivalent to x, if there is one. */
    method FindInfo(x: T, h: nat) returns (tmp: Node?<T>)
      requires Valid() && h == keys.Bucket(x, infoArray.Length)
      ensures tmp != null ==> tmp in chains[h] && tmp.data in Items() && keys.Same(x, tmp.data)
      ensures tmp == null ==> forall e :: e in Items() ==> !keys.Same(x, e)
    {
      assert Linked(infoArray[h], chains[h]);
      ghost var j := 0;
      tmp := infoArray[h];
      while tmp != null && keys.compData(x, tmp.data) != 0
        invariant j <= |chains[h]| && tmp == (if j < |chains[h]| then chains[h][j] else null)
        invariant forall k :: 0 <= k < j ==> !keys.Same(x, chains[h][k].data)
        invariant Linked(infoArray[h], chains[h])
        decreases |chains[h]| - j
      {
        tmp, j := tmp.next, j + 1;
      }
      InOwnBucket(keys, chains, x);
    }

    /** HashFind */
    method Find(x: T) returns (r: Option<T>)
      requires Valid()
      ensures r.Some? ==> r.value in Items() && keys.Same(x, r.value)
      ensures r.None? ==> forall e :: e in Items() ==> !keys.Same(x, e)
    {
      var tmp := FindInfo(x, keys.Bucket(x, infoArray.Length));
      r := if tmp == null then None else Some(tmp.data);
    }

    /** The new node of HashAdd, in front of its chain. */
    method Prepend(x: T, h: nat) returns (newInfo: Node<T>)
      requires Valid() && h == keys.Bucket(x, infoArray.Length)
      requires forall e :: e in Items() ==> !keys.Same(x, e)
      modifies this`elementCount, this`chains, infoArray
      ensures Valid() && Items() == old(Items()) + {x} && elementCount == old(elementCount) + 1
      ensures fresh(newInfo) && NodesOf(chains) <= old(NodesOf(chains)) + {newInfo}
    {
      newInfo := LinkFirst(infoArray, chains, h, x);
      Put(keys, chains, newInfo);
      elementCount := elementCount + 1;
      chains := chains[h := [newInfo] + chains[h]];
    }

    /** HashAdd: adds exactly if no equivalent element is there. */
    method Add(x: T) returns (r: bool)
      requires Valid()
      modifies this`elementCount, this`chains, infoArray
      ensures Valid() && fresh(NodesOf(chains) - old(NodesOf(chains)))
      ensures r <==> forall e :: e in old(Items()) ==> !keys.Same(x, e)
      ensures Items() == if r then old(Items()) + {x} else old(Items())
      ensures elementCount == old(elementCount) + if r then 1 else 0
    {
      var h := keys.Bucket(x, infoArray.Length);
      var tmp := FindInfo(x, h);
      if tmp != null {
        return false;
      }
      var _ := Prepend(x, h);
      r := true;
    }

    /** HashDelete; HashDestroy differs only in handing the removed data to destrData. */
    method Delete(x: T) returns (removed: Option<T>)
      requires Valid()
      modifies this`elementCount, this`chains, infoArray, NodesOf(chains)
      ensures Valid() && NodesOf(chains) <= old(NodesOf(chains))
      ensures Items() == Without(keys, old(Items()), x)
      ensures removed.Some? ==> removed.value in old(Items()) && keys.Same(x, removed.value)
      ensures removed.None? ==> Items() == old(Items())
      ensures elementCount == old(elementCount) - (if removed.Some? then 1 else 0) && elementCount >= 0
    {
      Apart(keys, chains, keys.Bucket(x, infoArray.Length));
      var toTrash, chains' := Unlink(keys, infoArray, chains, x, keys.Bucket(x, infoArray.Length));
      Deletes(keys, chains, elementCount, x, toTrash, chains');
      Commit(toTrash != null, chains');
      removed := if toTrash == null then None else Some(toTrash.data);
    }

    method Commit(found: bool, ghost chains': Chains<T>)
      requires AllLinked(infoArray, chains') && Proper(keys, chains', if found then elementCount - 1 else elementCount)
      modifies this`elementCount, this`chains
      ensures Valid() && chains == chains' && elementCount == if found then old(elementCount) - 1 else old(elementCount)
    {
      chains := chains';
      if found {
        elementCount := elementCount - 1;
      }
    }
  }

  /** The inner loop of HashDestroyTable (222-231). */
  method DestroyChain<T>(first: Node?<T>, ghost chain: seq<Node<T>>) returns (destroyed: seq<T>)
    requires Linked(first, chain)
    ensures destroyed == Data(chain)
  {
    destroyed := [];
    var tmp := first;
    ghost var j := 0;
    while tmp != null
      invariant j <= |chain| && tmp == (if j < |chain| then chain[j] else null)
      invariant destroyed == Data(chain[..j])
      invariant Linked(first, chain)
      decreases |chain| - j
    {
      assert chain[..j + 1] == chain[..j] + [tmp];
      destroyed := destroyed + [tmp.data];
      tmp, j := tmp.next, j + 1;
    }
    assert chain[..j] == chain;
  }

  /** HashDestroyTable: the data handed to destrData is that of a traversal, each element once. */
  method DestroyTable<T>(infoArray: array<Node?<T>>, ghost chains: Chains<T>) returns (destroyed: seq<T>)
    requires AllLinked(infoArray, chains)
    ensures destroyed == Data(Flat(chains))
  {
    destroyed := [];
    for i := 0 to infoArray.Length
      invariant AllLinked(infoArray, chains)
      invariant destroyed == Data(Flat(chains[..i]))
    {
      FlatAt(chains, i);
      DataConcat(Flat(chains[..i]), chains[i]);
      assert Linked(infoArray[i], chains[i]);
      var more := DestroyChain(infoArray[i], chains[i]);
      destroyed := destroyed + more;
    }
    assert chains[..infoArray.Length] == chains;
  }

  ghost function Data<T>(s: seq<Node<T>>): (d: seq<T>)
    ensures |d| == |s|
  {
    if s == [] then [] else Data(s[..|s| - 1]) + [s[|s| - 1].data]
  }

  lemma {:induction false} DataAt<T>(s: seq<Node<T>>, p: nat)
    requires p < |s|
    ensures Data(s)[p] == s[p].data
  {
    if p < |s| - 1 { DataAt(s[..|s| - 1], p); }
  }

  lemma {:induction false} DataConcat<T>(s: seq<Node<T>>, t: seq<Node<T>>)
    ensures Data(s + t) == Data(s) + Data(t)
  {
    if t == [] {
      assert s + t == s;
    } else {
      DataConcat(s, t[..|t| - 1]);
      assert (s + t)[..|s + t| - 1] == s + t[..|t| - 1];
    }
  }

  // ---------- cursors ----------

  /** The number of elements in the chains before chain i. */
  ghost function Offset<T>(chains: Chains<T>, i: nat): nat
    requires i <= |chains|
  {
    if i == 0 then 0 else Offset(chains, i - 1) + |chains[i - 1]|
  }

  lemma {:induction false} OffsetIsFlat<T>(chains: Chains<T>, i: nat)
    requires i <= |chains|
    ensures Offset(chains, i) == |Flat(chains[..i])|
  {
    if i > 0 {
      OffsetIsFlat(chains, i - 1);
      FlatAt(chains, i - 1);
    }
  }

  /** A cursor stands on element number p of the traversal, or after the last one. */
  ghost predicate CursorAt<T>(chains: Chains<T>, hashIndex: int, element: Node?<T>, p: nat) {
    if element == null then
      hashIndex == |chains| && p == Offset(chains, |chains|)
    else
      && 0 <= hashIndex < |chains|
      && 0 <= p - Offset(chains, hashIndex) < |chains[hashIndex]|
      && element == chains[hashIndex][p - Offset(chains, hashIndex)]
  }

  lemma CursorMeets<T>(chains: Chains<T>, hashIndex: int, element: Node?<T>, p: nat)
    requires CursorAt(chains, hashIndex, element, p)
    ensures p <= |Flat(chains)| && (element == null <==> p == |Flat(chains)|)
    ensures hashIndex == |chains| <==> p == |Flat(chains)|
    ensures element != null ==> element == Flat(chains)[p]
  {
    if element != null {
      OffsetIsFlat(chains, hashIndex);
      FlatAt(chains, hashIndex);
    } else {
      OffsetIsFlat(chains, |chains|);
      assert chains[..|chains|] == chains;
    }
  }

  /** moveCursorToNextIndex: the first element of the next chain that has one. */
  method NextIndex<T>(infoArray: array<Node?<T>>, ghost chains: Chains<T>, start: int, ghost p: nat)
    returns (hashIndex: int, element: Node?<T>)
    requires AllLinked(infoArray, chains) && -1 <= start < |chains| && p == Offset(chains, start + 1)
    ensures CursorAt(chains, hashIndex, element, p)
  {
    hashIndex := start + 1;
    while hashIndex < infoArray.Length && infoArray[hashIndex] == null
      invariant AllLinked(infoArray, chains)
      invariant 0 <= hashIndex <= |chains| && p == Offset(chains, hashIndex)
      decreases infoArray.Length - hashIndex
    {
      assert Linked(infoArray[hashIndex], chains[hashIndex]);
      hashIndex := hashIndex + 1;
    }
    if hashIndex < infoArray.Length {
      assert Linked(infoArray[hashIndex], chains[hashIndex]);
      element := infoArray[hashIndex];
    } else {
      element := null;
    }
  }

  method Advance<T>(infoArray: array<Node?<T>>, ghost chains: Chains<T>, hashIndex: int, element: Node<T>, ghost p: nat)
    returns (hashIndex': int, element': Node?<T>)
    requires AllLinked(infoArray, chains) && CursorAt(chains, hashIndex, element, p)
    ensures CursorAt(chains, hashIndex', element', p + 1)
  {
    assert Linked(infoArray[hashIndex], chains[hashIndex]);
    if element.next == null {
      hashIndex', element' := NextIndex(infoArray, chains, hashIndex, p + 1);
    } else {
      hashIndex', element' := hashIndex, element.next;
    }
  }

  class Cursor<T(!new)> {
    const hashTable: Table<T>
    var hashIndex: int
    var element: Node?<T>

    ghost predicate At(p: nat)
      reads this, hashTable
    {
      CursorAt(hashTable.chains, hashIndex, element, p)
    }

    /** HashCursorCreate, with HashCursorGoFirst: the cursor starts on the first element. */
    constructor (ht: Table<T>)
      requires AllLinked(ht.infoArray, ht.chains)
      ensures hashTable == ht && At(0) && AllLinked(ht.infoArray, ht.chains)
    {
      hashTable, hashIndex, element := ht, -1, null;
      new;
      hashIndex, element := NextIndex(ht.infoArray, ht.chains, -1, 0);
    }

    /** HashCursorGoNext; a cursor past the last element has nothing to move from. */
    method GoNext(ghost p: nat)
      requires AllLinked(hashTable.infoArray, hashTable.chains) && At(p) && p < |Flat(hashTable.chains)|
      modifies this
      ensures At(p + 1) && AllLinked(hashTable.infoArray, hashTable.chains)
    {
      CursorMeets(hashTable.chains, hashIndex, element, p);
      hashIndex, element := Advance(hashTable.infoArray, hashTable.chains, hashIndex, element, p);
    }

    /** HashCursorPastLastElement */
    method PastLastElement(ghost p: nat) returns (r: bool)
      requires At(p) && |hashTable.chains| == hashTable.infoArray.Length
      ensures r <==> p == |Flat(hashTable.chains)|
    {
      CursorMeets(hashTable.chains, hashIndex, element, p);
      r := hashIndex >= hashTable.infoArray.Length;
    }

    /** HashCursorGetElement; its assertion holds before the end. */
    method GetElement(ghost p: nat) returns (data: T)
      requires At(p) && p < |Flat(hashTable.chains)|
      ensures data == Flat(hashTable.chains)[p].data
    {
      CursorMeets(hashTable.chains, hashIndex, element, p);
      data := element.data;
    }
  }

  lemma {:induction false} FlatEmpty<T>(n: nat)
    ensures Flat<T>(seq(n, _ => [])) == []
  {
    if n > 0 {
      FlatEmpty<T>(n - 1);
      assert seq<seq<Node<T>>>(n, _ => [])[..n - 1] == seq(n - 1, _ => []);
    }
  }
}
