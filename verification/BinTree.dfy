/**
  The binary search tree of src/bt.c: nodes linked to their children and to their father,
  and a cursor that steps through them in order by following those links.
 */
module BinTree {
  import opened Wrappers

  datatype Direction = LEFT | RIGHT | NONE

  /** What a comparison function has to be for a search tree. */
  ghost predicate TotalOrder<T(!new)>(compare: (T, T) -> int) {
    && (forall a, b :: compare(a, b) < 0 <==> compare(b, a) > 0)
    && (forall a, b, c :: compare(a, b) < 0 && compare(b, c) <= 0 ==> compare(a, c) < 0)
    && (forall a, b, c :: compare(a, b) <= 0 && compare(b, c) < 0 ==> compare(a, c) < 0)
  }

  class Node<T> {
    var left: Node?<T>
    var right: Node?<T>
    var father: Node?<T>
    var direction: Direction
    const value: T

    constructor (value: T, father: Node?<T>, direction: Direction)
      ensures left == null && right == null
      ensures this.value == value && this.father == father && this.direction == direction
    {
      this.value, this.father, this.direction := value, father, direction;
      left, right := null, null;
    }
  }

  /** The links of a node, as a value. */
  datatype Links<T> = Links(left: Node?<T>, right: Node?<T>, father: Node?<T>, direction: Direction)

  /** A node's place in the in-order sequence of its tree, and the places from lo to hi that
      the subtree below it occupies. */
  datatype Span = Span(lo: nat, pos: nat, hi: nat)

  /** The nodes of a tree in order, their links, and the places they occupy. */
  datatype RawShape<T> = RawShape(root: Node?<T>, order: seq<Node<T>>,
                                  g: map<Node<T>, Links<T>>, at: map<Node<T>, Span>)

  ghost predicate NodeOk<T>(n: Node<T>, sh: RawShape<T>)
    requires n in sh.at && sh.at.Keys == sh.g.Keys
  {
    sh.at[n].pos < |sh.order| && sh.order[sh.at[n].pos] == n && LinksOk(n, sh) && FatherOk(n, sh)
  }

  /** The links of one node agree with the places that subtrees occupy. */
  ghost predicate LinksOk<T>(n: Node<T>, sh: RawShape<T>)
    requires n in sh.at && sh.at.Keys == sh.g.Keys
  {
    var s, l, g, at := sh.at[n], sh.g[n], sh.g, sh.at;
    && s.lo <= s.pos < s.hi <= |sh.order|
    && (l.left == null <==> s.lo == s.pos)
    && (l.left != null ==>
          && l.left in at && at[l.left].lo == s.lo && at[l.left].hi == s.pos
          && g[l.left].father == n && g[l.left].direction == LEFT)
    && (l.right == null <==> s.pos + 1 == s.hi)
    && (l.right != null ==>
          && l.right in at && at[l.right].lo == s.pos + 1 && at[l.right].hi == s.hi
          && g[l.right].father == n && g[l.right].direction == RIGHT)
    && (n == sh.root ==> s.lo == 0 && s.hi == |sh.order|)
  }

  ghost predicate FatherOk<T>(n: Node<T>, sh: RawShape<T>)
    requires n in sh.g
  {
    var l := sh.g[n];
    && (l.father == null <==> n == sh.root)
    && (n == sh.root ==> l.direction == NONE)
    && (l.father != null ==>
          && l.father in sh.g
          && (l.direction == LEFT ==> sh.g[l.father].left == n)
          && (l.direction != LEFT ==> l.direction == RIGHT && sh.g[l.father].right == n))
  }

  /** A place in the in-order sequence is the place of the node there. */
  ghost predicate PlaceOk<T>(i: nat, sh: RawShape<T>)
    requires i < |sh.order|
  {
    sh.order[i] in sh.at && sh.at[sh.order[i]].pos == i
  }

  ghost predicate Linked<T>(sh: RawShape<T>) {
    && sh.at.Keys == sh.g.Keys
    && (sh.root == null <==> sh.order == [])
    && (sh.root != null ==> sh.root in sh.at)
    && (forall i {:trigger PlaceOk(i, sh)} :: 0 <= i < |sh.order| ==> PlaceOk(i, sh))
    && (forall n {:trigger NodeOk(n, sh)} :: n in sh.at ==> NodeOk(n, sh))
  }

  /** A linked tree. */
  type Shape<T> = sh: RawShape<T> | Linked(sh) ghost witness RawShape(null, [], map[], map[])

  ghost function ValuesOf<T>(nodes: seq<Node<T>>): (s: seq<T>)
    ensures |s| == |nodes|
    ensures forall i {:trigger s[i]} :: 0 <= i < |s| ==> s[i] == nodes[i].value
  {
    seq(|nodes|, i requires 0 <= i < |nodes| => nodes[i].value)
  }

  lemma ValuesAfterInsert<T>(nodes: seq<Node<T>>, k: nat, node: Node<T>)
    requires k <= |nodes|
    ensures ValuesOf(nodes[..k] + [node] + nodes[k..]) == ValuesOf(nodes)[..k] + [node.value] + ValuesOf(nodes)[k..]
  {}

  /** The answer to a search for the key among the places from lo to hi. */
  ghost predicate Answers<T>(r: Option<T>, compare: (T, T) -> int, key: T, values: seq<T>, lo: nat, hi: nat)
    requires lo <= hi <= |values|
  {
    match r
    case None => forall i :: lo <= i < hi ==> compare(key, values[i]) != 0
    case Some(v) => exists i :: lo <= i < hi && values[i] == v && compare(key, v) == 0
  }

  /** A key compares with sorted values as larger, then perhaps equal, then smaller. */
  ghost predicate Monotone<T>(compare: (T, T) -> int, key: T, values: seq<T>) {
    forall i, j :: 0 <= i < j < |values| ==>
      && (compare(key, values[i]) <= 0 ==> compare(key, values[j]) < 0)
      && (compare(key, values[j]) >= 0 ==> compare(key, values[i]) > 0)
  }

  /** Every value is smaller than the next one. */
  ghost predicate Increasing<T>(compare: (T, T) -> int, values: seq<T>)
    decreases |values|
  {
    var n := |values|;
    n < 2 || (compare(values[n - 2], values[n - 1]) < 0 && Increasing(compare, values[..n - 1]))
  }

  /** Every value is smaller than all that follow. */
  ghost predicate Sorted<T>(compare: (T, T) -> int, values: seq<T>) {
    forall i, j :: 0 <= i < j < |values| ==> compare(values[i], values[j]) < 0
  }

  lemma {:induction false} IncreasingIsSorted<T(!new)>(compare: (T, T) -> int, values: seq<T>)
    requires TotalOrder(compare) && Increasing(compare, values)
    ensures Sorted(compare, values)
    decreases |values|
  {
    var n := |values|;
    if n >= 2 {
      var most := values[..n - 1];
      IncreasingIsSorted(compare, most);
      forall i, j | 0 <= i < j < n ensures compare(values[i], values[j]) < 0 {
        assert values[i] == most[i];
        if j < n - 1 {
          assert values[j] == most[j];
        } else if i < n - 2 {
          assert compare(most[i], most[n - 2]) < 0;
        }
      }
    }
  }

  lemma {:induction false} SortedIsIncreasing<T>(compare: (T, T) -> int, values: seq<T>)
    requires Sorted(compare, values)
    ensures Increasing(compare, values)
    decreases |values|
  {
    if |values| >= 2 {
      SortedIsIncreasing(compare, values[..|values| - 1]);
    }
  }

  lemma KeysAreMonotone<T(!new)>(compare: (T, T) -> int, key: T, values: seq<T>)
    requires TotalOrder(compare) && Increasing(compare, values)
    ensures Monotone(compare, key, values)
  {
    IncreasingIsSorted(compare, values);
  }

  /** The value is larger than all before place lo and smaller than all from place hi on. */
  ghost predicate Between<T>(compare: (T, T) -> int, value: T, values: seq<T>, lo: nat, hi: nat) {
    && lo <= hi <= |values|
    && (forall i :: 0 <= i < lo ==> compare(value, values[i]) > 0)
    && (forall i :: hi <= i < |values| ==> compare(value, values[i]) < 0)
  }

  /** One comparison on the way down. */
  lemma Narrow<T>(compare: (T, T) -> int, value: T, values: seq<T>, s: Span)
    requires Monotone(compare, value, values) && Between(compare, value, values, s.lo, s.hi)
    requires s.lo <= s.pos < s.hi
    ensures compare(value, values[s.pos]) < 0 ==> Between(compare, value, values, s.lo, s.pos)
    ensures compare(value, values[s.pos]) > 0 ==> Between(compare, value, values, s.pos + 1, s.hi)
  {}

  lemma InsertKeepsSorted<T(!new)>(compare: (T, T) -> int, value: T, values: seq<T>, k: nat)
    requires TotalOrder(compare) && Sorted(compare, values) && Between(compare, value, values, k, k)
    ensures Sorted(compare, values[..k] + [value] + values[k..])
  {
    var r := values[..k] + [value] + values[k..];
    forall i, j | 0 <= i < j < |r| ensures compare(r[i], r[j]) < 0 {
      InsertedAt(value, values, k, i);
      InsertedAt(value, values, k, j);
    }
  }

  lemma InsertedAt<T>(value: T, values: seq<T>, k: nat, i: nat)
    requires k <= |values| && i <= |values|
    ensures (values[..k] + [value] + values[k..])[i] ==
              if i < k then values[i] else if i == k then value else values[i - 1]
  {}

  lemma InsertKeepsIncreasing<T(!new)>(compare: (T, T) -> int, value: T, values: seq<T>, k: nat)
    requires TotalOrder(compare) && Increasing(compare, values) && Between(compare, value, values, k, k)
    ensures Increasing(compare, values[..k] + [value] + values[k..])
  {
    IncreasingIsSorted(compare, values);
    InsertKeepsSorted(compare, value, values, k);
    SortedIsIncreasing(compare, values[..k] + [value] + values[k..]);
  }

  /** The next larger value is new to the values before it, and goes to their end. */
  lemma NextGoesLast<T(!new)>(compare: (T, T) -> int, values: seq<T>, i: nat)
    requires TotalOrder(compare) && Increasing(compare, values) && i < |values|
    ensures forall j :: 0 <= j < i ==> compare(values[i], values[..i][j]) != 0
    ensures forall k | 0 <= k <= i && Increasing(compare, values[..i][..k] + [values[i]] + values[..i][k..]) ::
              values[..i][..k] + [values[i]] + values[..i][k..] == values[..i + 1]
  {
    IncreasingIsSorted(compare, values);
    forall k | 0 <= k <= i && Increasing(compare, values[..i][..k] + [values[i]] + values[..i][k..])
      ensures values[..i][..k] + [values[i]] + values[..i][k..] == values[..i + 1]
    {
      InsertedAtEnd(compare, values, i, k);
    }
  }

  lemma AfterInserted<T>(compare: (T, T) -> int, value: T, values: seq<T>, k: nat)
    requires k < |values| && Sorted(compare, values[..k] + [value] + values[k..])
    ensures compare(value, values[k]) < 0
  {
    var r := values[..k] + [value] + values[k..];
    assert r[k] == value && r[k + 1] == values[k];
  }

  lemma InsertedAtEnd<T(!new)>(compare: (T, T) -> int, values: seq<T>, i: nat, k: nat)
    requires TotalOrder(compare) && Sorted(compare, values) && k <= i < |values|
    requires Increasing(compare, values[..i][..k] + [values[i]] + values[..i][k..])
    ensures values[..i][..k] + [values[i]] + values[..i][k..] == values[..i + 1]
  {
    IncreasingIsSorted(compare, values[..i][..k] + [values[i]] + values[..i][k..]);
    if k < i {
      AfterInserted(compare, values[i], values[..i], k);
      assert false;
    }
  }

  // ---- linking a new node ----------------------------------------------------------------------

  ghost function Place<T>(sh: RawShape<T>, father: Node<T>, direction: Direction): nat
    requires father in sh.at
  {
    if direction == LEFT then sh.at[father].pos else sh.at[father].pos + 1
  }

  /** The span of a node once place k, next to place f, has been taken by a new leaf. */
  ghost function Shifted(s: Span, f: nat, k: nat): Span {
    Span(if s.lo > f then s.lo + 1 else s.lo,
         if s.pos >= k then s.pos + 1 else s.pos,
         if s.hi > f then s.hi + 1 else s.hi)
  }

  /** The shape with a new leaf under the father. */
  ghost function With<T>(sh: RawShape<T>, father: Node<T>, direction: Direction, node: Node<T>): RawShape<T>
    requires father in sh.at && father in sh.g && Place(sh, father, direction) <= |sh.order|
  {
    var f, k := sh.at[father].pos, Place(sh, father, direction);
    RawShape(sh.root, sh.order[..k] + [node] + sh.order[k..], GraphWith(sh.g, father, direction, node),
             (map m | m in sh.at :: Shifted(sh.at[m], f, k))[node := Span(k, k, k + 1)])
  }

  ghost function GraphWith<T>(g: map<Node<T>, Links<T>>, father: Node<T>, direction: Direction, node: Node<T>)
    : map<Node<T>, Links<T>>
    requires father in g
  {
    var l := if direction == LEFT then g[father].(left := node) else g[father].(right := node);
    g[father := l][node := Links(null, null, father, direction)]
  }

  /** The father has no child yet on the side where a new node is to go. */
  ghost predicate Vacant<T>(sh: RawShape<T>, father: Node<T>, direction: Direction)
  {
    && father in sh.g && father in sh.at
    && (|| (direction == LEFT && sh.g[father].left == null)
        || (direction == RIGHT && sh.g[father].right == null))
  }

  lemma OldLinksStayOk<T>(n: Node<T>, sh: RawShape<T>, father: Node<T>, direction: Direction, node: Node<T>)
    requires n in sh.at && father in sh.at && node !in sh.at && sh.at.Keys == sh.g.Keys
    requires Place(sh, father, direction) <= |sh.order| && Vacant(sh, father, direction)
    requires LinksOk(n, sh) && LinksOk(father, sh) && (n != father ==> sh.at[n].pos != sh.at[father].pos)
    ensures With(sh, father, direction, node).at.Keys == With(sh, father, direction, node).g.Keys
    ensures LinksOk(n, With(sh, father, direction, node))
  {}

  lemma OldNodeStaysOk<T>(n: Node<T>, sh: RawShape<T>, father: Node<T>, direction: Direction, node: Node<T>)
    requires n in sh.at && father in sh.at && node !in sh.at && sh.at.Keys == sh.g.Keys
    requires NodeOk(n, sh) && NodeOk(father, sh) && Vacant(sh, father, direction)
    ensures Place(sh, father, direction) <= |sh.order|
    ensures With(sh, father, direction, node).at.Keys == With(sh, father, direction, node).g.Keys
    ensures NodeOk(n, With(sh, father, direction, node))
  {
    OldLinksStayOk(n, sh, father, direction, node);
    OldPosStays(n, sh, father, direction, node);
  }

  lemma OldPosStays<T>(n: Node<T>, sh: RawShape<T>, father: Node<T>, direction: Direction, node: Node<T>)
    requires n in sh.at && father in sh.at && father in sh.g && node !in sh.at
             && Place(sh, father, direction) <= |sh.order|
    requires sh.at[n].pos < |sh.order| && sh.order[sh.at[n].pos] == n
    ensures var sh' := With(sh, father, direction, node);
            n in sh'.at && sh'.at[n].pos < |sh'.order| && sh'.order[sh'.at[n].pos] == n
  {
    var k, p := Place(sh, father, direction), sh.at[n].pos;
    assert With(sh, father, direction, node).order[if p < k then p else p + 1] == n;
  }

  lemma NewNodeIsOk<T>(sh: RawShape<T>, father: Node<T>, direction: Direction, node: Node<T>)
    requires father in sh.at && node !in sh.at && sh.at.Keys == sh.g.Keys && node != sh.root
    requires NodeOk(father, sh) && Vacant(sh, father, direction)
    ensures Place(sh, father, direction) <= |sh.order|
    ensures With(sh, father, direction, node).at.Keys == With(sh, father, direction, node).g.Keys
    ensures NodeOk(node, With(sh, father, direction, node))
  {}

  lemma OldPlaceStaysOk<T>(i: nat, sh: RawShape<T>, father: Node<T>, direction: Direction, node: Node<T>)
    requires Vacant(sh, father, direction) && node !in sh.at && Place(sh, father, direction) <= |sh.order|
    requires i < |sh.order| && PlaceOk(i, sh)
    ensures PlaceOk(if i < Place(sh, father, direction) then i else i + 1, With(sh, father, direction, node))
  {
    var k, sh' := Place(sh, father, direction), With(sh, father, direction, node);
    assert sh'.order[if i < k then i else i + 1] == sh.order[i];
  }

  /** Hanging a new leaf under the father keeps the tree linked and puts the leaf next to the
      father in the in-order sequence. */
  lemma InsertKeepsLinked<T>(sh: Shape<T>, father: Node<T>, direction: Direction, node: Node<T>)
    requires Vacant(sh, father, direction) && node !in sh.at
    ensures Place(sh, father, direction) <= |sh.order|
    ensures Linked(With(sh, father, direction, node))
  {
    assert NodeOk(father, sh);
    NewNodeIsOk(sh, father, direction, node);
    var sh' := With(sh, father, direction, node);
    forall n | n in sh'.at ensures NodeOk(n, sh') {
      if n != node {
        assert NodeOk(n, sh);
        OldNodeStaysOk(n, sh, father, direction, node);
      }
    }
    PlacesStayOk(sh, father, direction, node);
  }

  lemma PlacesStayOk<T>(sh: Shape<T>, father: Node<T>, direction: Direction, node: Node<T>)
    requires Vacant(sh, father, direction) && node !in sh.at && Place(sh, father, direction) <= |sh.order|
    ensures var sh' := With(sh, father, direction, node);
            forall i {:trigger PlaceOk(i, sh')} :: 0 <= i < |sh'.order| ==> PlaceOk(i, sh')
  {
    var k, sh' := Place(sh, father, direction), With(sh, father, direction, node);
    forall i | 0 <= i < |sh'.order| ensures PlaceOk(i, sh') {
      if i == k {
        assert sh'.order[k] == node;
      } else {
        var j := if i < k then i else i - 1;
        assert PlaceOk(j, sh);
        OldPlaceStaysOk(j, sh, father, direction, node);
      }
    }
  }

  /** The shape with the leaf, and what it does to the values. */
  lemma Insert<T>(sh: Shape<T>, father: Node<T>, direction: Direction, node: Node<T>) returns (sh': Shape<T>)
    requires Vacant(sh, father, direction) && node !in sh.at
    ensures sh'.root == sh.root && sh'.g == GraphWith(sh.g, father, direction, node)
    ensures var k, values := Place(sh, father, direction), ValuesOf(sh.order);
            k <= |values| && ValuesOf(sh'.order) == values[..k] + [node.value] + values[k..]
  {
    InsertKeepsLinked(sh, father, direction, node);
    ValuesAfterInsert(sh.order, Place(sh, father, direction), node);
    sh' := With(sh, father, direction, node);
  }

  /** The links on the heap are those recorded. */
  ghost predicate Tied<T>(g: map<Node<T>, Links<T>>)
    reads g.Keys
  {
    forall n {:trigger g[n]} :: n in g ==> g[n] == Links(n.left, n.right, n.father, n.direction)
  }

  /** Lines 125-137: a new node, linked under its father. */
  method LinkChild<T>(value: T, father: Node<T>, direction: Direction, ghost sh: Shape<T>)
    returns (ghost sh': Shape<T>)
    requires Tied(sh.g) && Vacant(sh, father, direction)
    modifies father
    ensures Tied(sh'.g) && sh'.root == sh.root
    ensures var k, values := Place(sh, father, direction), ValuesOf(sh.order);
            k <= |values| && ValuesOf(sh'.order) == values[..k] + [value] + values[k..]
    ensures forall n :: n in sh'.g ==> n in sh.g || fresh(n)
  {
    assert sh.g[father].left == father.left && sh.g[father].right == father.right;
    var node := new Node<T>(value, father, direction);
    if direction == LEFT {
      father.left := node;
    } else {
      father.right := node;
    }
    sh' := Insert(sh, father, direction, node);
  }

  class Tree<T(!new)> {
    var root: Node?<T>
    var current: Node?<T>
    var count: nat
    const compare: (T, T) -> int
    ghost var shape: Shape<T>

    /** The values in the tree, in order. */
    ghost function Values(): seq<T>
      reads this`shape
    {
      ValuesOf(shape.order)
    }

    /** The links on the heap are those of the shape. */
    ghost predicate Wired()
      reads this`root, this`shape, shape.g.Keys
    {
      Tied(shape.g) && root == shape.root
    }

    ghost predicate Valid()
      reads this`root, this`shape, shape.g.Keys
    {
      && Wired()
      && TotalOrder(compare) && Increasing(compare, Values())
    }

    /** The counter counts the values. */
    ghost predicate Counted()
      reads this`count, this`shape
    {
      count == |Values()|
    }

    constructor (compare: (T, T) -> int)
      requires TotalOrder(compare)
      ensures Valid() && Counted() && Values() == [] && shape.g == map[] && this.compare == compare
    {
      this.compare := compare;
      root, count, shape := null, 0, RawShape(null, [], map[], map[]);
    }

    /** bt_GoFirst: the cursor stands on the smallest value, or on none. */
    method GoFirst()
      requires Tied(shape.g) && root == shape.root
      modifies this`current
      ensures current == (if shape.order == [] then null else shape.order[0])
      ensures current != null ==> current in shape.at && shape.at[current].pos == 0
    {
      ghost var g, at := shape.g, shape.at;
      var node := root;
      if node != null {
        assert NodeOk(node, shape);
        while node.left != null
          invariant node != null && node in at && NodeOk(node, shape) && at[node].lo == 0
          decreases if node == null then 0 else at[node].hi
        {
          assert g[node].left == node.left;
          node := node.left;
          assert NodeOk(node, shape);
        }
        assert g[node].left == null;
      }
      current := node;
    }

    /** bt_GoNext: the cursor moves to the next larger value, or past the end. */
    method GoNext()
      requires Tied(shape.g) && root == shape.root && current != null && current in shape.at
      modifies this`current
      ensures var next := shape.at[old(current)].pos + 1;
              current == if next < |shape.order| then shape.order[next] else null
      ensures current != null ==> current in shape.at && shape.at[current].pos == shape.at[old(current)].pos + 1
    {
      ghost var g, at := shape.g, shape.at;
      var node := current;
      ghost var next := at[node].pos + 1;
      assert NodeOk(node, shape) && g[node].right == node.right;
      if node.right != null {
        node := node.right;
        assert NodeOk(node, shape);
        while node.left != null
          invariant node != null && node in at && NodeOk(node, shape) && at[node].lo == next
          decreases if node == null then 0 else at[node].hi
        {
          assert g[node].left == node.left;
          node := node.left;
          assert NodeOk(node, shape);
        }
        assert g[node].left == null;
        current := node;
      } else {
        var dir := node.direction;
        ghost var child := node;
        node := node.father;
        while node != null && dir != LEFT
          invariant child in at && NodeOk(child, shape) && at[child].hi == next
          invariant dir == g[child].direction && node == g[child].father
          decreases |shape.order| - (at[child].hi - at[child].lo)
        {
          child := node;
          assert NodeOk(child, shape);
          assert g[child].direction == node.direction;
          dir := node.direction;
          node := node.father;
        }
        if node != null {
          assert NodeOk(node, shape);
        }
        current := node;
      }
    }

    /** bt_nodefind, and bt_find when started at the root. */
    function NodeFind(node: Node?<T>, key: T): Option<T>
      requires Tied(shape.g) && (node != null ==> node in shape.at)
      reads this, shape.g.Keys
      decreases if node == null then 0 else shape.at[node].hi - shape.at[node].lo
    {
      if node == null then None
      else
        assert NodeOk(node, shape) && shape.g[node].left == node.left && shape.g[node].right == node.right;
        var c := compare(key, node.value);
        if c == 0 then Some(node.value)
        else if c < 0 then
          assert node.left != null ==> NodeOk(node.left, shape);
          NodeFind(node.left, key)
        else
          assert node.right != null ==> NodeOk(node.right, shape);
          NodeFind(node.right, key)
    }

    /** bt_nodefind agrees with membership in the subtree. */
    lemma {:induction false} NodeFindIsMembership(node: Node<T>, key: T)
      requires Tied(shape.g) && Monotone(compare, key, Values())
      requires node in shape.at && NodeOk(node, shape)
      ensures Answers(NodeFind(node, key), compare, key, Values(), shape.at[node].lo, shape.at[node].hi)
      decreases shape.at[node].hi - shape.at[node].lo
    {
      var s := shape.at[node];
      assert Values()[s.pos] == node.value;
      assert shape.g[node].left == node.left && shape.g[node].right == node.right;
      var c := compare(key, node.value);
      if c < 0 && node.left != null {
        assert NodeOk(node.left, shape);
        NodeFindIsMembership(node.left, key);
      } else if c > 0 && node.right != null {
        assert NodeOk(node.right, shape);
        NodeFindIsMembership(node.right, key);
      }
    }

    /** bt_find */
    method Find(key: T) returns (r: Option<T>)
      requires Valid()
      ensures Answers(r, compare, key, Values(), 0, |Values()|)
    {
      r := NodeFind(root, key);
      if root != null {
        assert NodeOk(root, shape);
        KeysAreMonotone(compare, key, Values());
        NodeFindIsMembership(root, key);
      }
    }

    /** The descent of bt_add (89-121): an equal value, or where a new node belongs. */
    method Descend(value: T) returns (father: Node?<T>, direction: Direction, found: bool)
      requires Tied(shape.g) && root == shape.root && Monotone(compare, value, Values())
      ensures found ==> exists i :: 0 <= i < |Values()| && compare(value, Values()[i]) == 0
      ensures !found && father == null ==> root == null && direction == NONE
      ensures !found && father != null ==>
                && Vacant(shape, father, direction)
                && var k := Place(shape, father, direction); Between(compare, value, Values(), k, k)
    {
      var cur := root;
      father, direction, found := null, NONE, false;
      ghost var size := |shape.order| + 1;
      if cur != null {
        assert NodeOk(cur, shape);
      }
      while cur != null
        invariant cur != null ==>
                    && cur in shape.at && NodeOk(cur, shape)
                    && Between(compare, value, Values(), shape.at[cur].lo, shape.at[cur].hi)
                    && shape.at[cur].hi - shape.at[cur].lo < size
        invariant father == null ==> cur == root && direction == NONE
        invariant father != null && cur == null ==>
                    && Vacant(shape, father, direction)
                    && var k := Place(shape, father, direction); Between(compare, value, Values(), k, k)
        decreases if cur == null then 0 else size
      {
        father := cur;
        ghost var s := shape.at[cur];
        size := s.hi - s.lo;
        assert Values()[s.pos] == cur.value && shape.g[cur].left == cur.left && shape.g[cur].right == cur.right;
        var tempint := compare(value, cur.value);
        Narrow(compare, value, Values(), s);
        if tempint < 0 {
          cur, direction := cur.left, LEFT;
        } else if tempint > 0 {
          cur, direction := cur.right, RIGHT;
        } else {
          found := true;
          return;
        }
        if cur != null {
          assert NodeOk(cur, shape);
        }
      }
    }

    /** The second half of bt_add (123-139): a new node as root or under its father. */
    method AddNode(value: T, father: Node?<T>, direction: Direction) returns (ghost k: nat)
      requires Tied(shape.g) && root == shape.root
      requires if father == null then root == null else Vacant(shape, father, direction)
      modifies this`root, this`count, this`shape, father
      ensures Tied(shape.g) && root == shape.root && count == old(count) + 1
      ensures k == (if father == null then 0 else old(Place(shape, father, direction)))
      ensures k <= |old(Values())| && Values() == old(Values())[..k] + [value] + old(Values())[k..]
      ensures forall n :: n in shape.g ==> n in old(shape.g) || fresh(n)
    {
      count := count + 1;
      if father == null {
        k := 0;
        root := new Node<T>(value, null, NONE);
        ghost var sh := RawShape(root, [root], map[root := Links(null, null, null, NONE)], map[root := Span(0, 0, 1)]);
        assert NodeOk(root, sh);
        shape := sh;
        assert Values() == [value];
      } else {
        k := Place(shape, father, direction);
        ghost var sh := LinkChild(value, father, direction, shape);
        assert forall n :: n in sh.g ==> (n as object) != this;
        shape := sh;
      }
    }

    /** bt_add: -1 if an equal value is there already and nothing changes, otherwise 0 and the
        value takes its place among the others. */
    method Add(value: T) returns (r: int)
      requires Valid()
      modifies this`root, this`count, this`shape, shape.g.Keys
      ensures Valid() && r in {-1, 0} && count == old(count) + (if r == 0 then 1 else 0)
      ensures r == -1 <==> exists i :: 0 <= i < old(|Values()|) && compare(value, old(Values())[i]) == 0
      ensures r == -1 ==> Values() == old(Values()) && shape == old(shape)
      ensures r == 0 ==> exists k :: 0 <= k <= old(|Values()|)
                                     && Values() == old(Values())[..k] + [value] + old(Values())[k..]
      ensures old(Counted()) ==> Counted()
      ensures forall n :: n in shape.g ==> n in old(shape.g) || fresh(n)
    {
      KeysAreMonotone(compare, value, Values());
      var father, direction, found := Descend(value);
      if found {
        return -1;
      }
      ghost var was := Values();
      ghost var k := AddNode(value, father, direction);
      InsertKeepsIncreasing(compare, value, was, k);
      r := 0;
    }

    /** One round of the loop in bt_dup (275): bt_add of the next larger value, in a tree that
        holds the smaller ones, puts it at the end. */
    method AddLargest(value: T, ghost values: seq<T>, ghost i: nat)
      requires Valid() && Increasing(compare, values) && i < |values| && values[i] == value
      requires Values() == values[..i]
      modifies this`root, this`count, this`shape, shape.g.Keys
      ensures Valid() && Values() == values[..i + 1]
      ensures forall n :: n in shape.g ==> n in old(shape.g) || fresh(n)
    {
      NextGoesLast(compare, values, i);
      var r := Add(value);
    }

    /** bt_dup without a dup function: the cursor visits every node of the tree once, in
        order, and then stops; the result is a tree of its own with the same values, and the
        cursor of the original is back where it was. */
    method Dup() returns (result: Tree<T>)
      requires Valid()
      modifies this`current
      ensures fresh(result) && result.Valid() && result.Values() == Values() && result.count == count
      ensures current == old(current) && (Counted() ==> result.Counted())
      ensures forall n :: n in result.shape.g ==> fresh(n)
    {
      var oldnode := current;
      result := Copy(shape, Values());
      current := oldnode;
      result.count := count;
    }

    /** The cursor stands on place i, or past the end. */
    ghost predicate OnPlace(sh: Shape<T>, i: nat)
      reads this`current
    {
      if i < |sh.order| then current == sh.order[i] && current in sh.at && sh.at[current].pos == i
      else current == null
    }

    /** A new tree with the values of this one (263-277). */
    method Copy(ghost sh: Shape<T>, ghost values: seq<T>) returns (result: Tree<T>)
      requires sh == shape && values == ValuesOf(sh.order) && Wired() && Ordered(compare, values)
      modifies this`current
      ensures fresh(result) && result.Wired() && result.compare == compare && result.Values() == values
      ensures forall n :: n in result.shape.g ==> fresh(n)
    {
      result := new Tree<T>(compare);
      GoFirst();
      CopyInto(result, sh, values);
    }

    /** The loop of bt_dup (272-277). */
    method CopyInto(result: Tree<T>, ghost sh: Shape<T>, ghost values: seq<T>)
      requires sh == shape && values == ValuesOf(sh.order) && Tied(sh.g) && root == sh.root && Ordered(compare, values)
      requires result != this && result.Wired() && result.compare == compare && result.shape.g == map[]
      requires result.Values() == [] && OnPlace(sh, 0)
      modifies this`current, result`root, result`count, result`shape
      ensures result.Wired() && result.Values() == values
      ensures forall n :: n in result.shape.g ==> fresh(n)
    {
      ghost var i := 0;
      while current != null
        invariant i <= |values| && OnPlace(sh, i) && Tied(sh.g)
        invariant result.Wired() && result.Values() == values[..i] && result.shape.g.Keys !! sh.g.Keys
        invariant forall n :: n in result.shape.g.Keys ==> fresh(n)
        decreases |values| - i
      {
        ghost var added := CopyCurrent(result, sh, values, i);
        i := i + 1;
      }
    }

    method CopyCurrent(result: Tree<T>, ghost sh: Shape<T>, ghost values: seq<T>, ghost i: nat)
      returns (ghost added: set<Node<T>>)
      requires sh == shape && values == ValuesOf(sh.order) && Tied(sh.g) && root == sh.root && Ordered(compare, values)
      requires i < |values| && OnPlace(sh, i)
      requires result != this && result.Wired() && result.compare == compare && result.Values() == values[..i]
      requires result.shape.g.Keys !! sh.g.Keys
      modifies this`current, result`root, result`count, result`shape, result.shape.g.Keys
      ensures OnPlace(sh, i + 1) && Tied(sh.g) && result.shape.g.Keys !! sh.g.Keys
      ensures result.Wired() && result.Values() == values[..i + 1]
      ensures fresh(added) && result.shape.g.Keys <= old(result.shape.g.Keys) + added
    {
      assert current.value == values[i];
      added := AddApart(result, sh, current.value, values, i);
      GoNext();
    }
  }

  ghost predicate Ordered<T(!new)>(compare: (T, T) -> int, values: seq<T>) {
    TotalOrder(compare) && Increasing(compare, values)
  }

  lemma {:induction false} IncreasingPrefix<T>(compare: (T, T) -> int, values: seq<T>, i: nat)
    requires Increasing(compare, values) && i <= |values|
    ensures Increasing(compare, values[..i])
    decreases |values| - i
  {
    if i < |values| {
      IncreasingPrefix(compare, values, i + 1);
      assert values[..i + 1][..i] == values[..i];
    } else {
      assert values[..i] == values;
    }
  }

  /** Adding the next value to a tree that shares no node with another one leaves that one as it
      is. */
  method AddApart<T(!new)>(result: Tree<T>, ghost sh: Shape<T>, value: T, ghost values: seq<T>, ghost i: nat)
    returns (ghost added: set<Node<T>>)
    requires Tied(sh.g) && result.shape.g.Keys !! sh.g.Keys
    requires result.Wired() && Ordered(result.compare, values) && i < |values| && values[i] == value
    requires result.Values() == values[..i]
    modifies result`root, result`count, result`shape, result.shape.g.Keys
    ensures Tied(sh.g) && result.shape.g.Keys !! sh.g.Keys
    ensures result.Wired() && result.Values() == values[..i + 1]
    ensures fresh(added) && result.shape.g.Keys <= old(result.shape.g.Keys) + added
  {
    IncreasingPrefix(result.compare, values, i);
    ghost var before := result.shape.g.Keys;
    result.AddLargest(value, values, i);
    added := result.shape.g.Keys - before;
  }
}
