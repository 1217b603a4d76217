/**
  A register that takes in its input one item at a time, and what follows from the laws of a
  single step.
 */
module Registers {

  function Feed<C, B>(step: (C, B) -> C, c: C, input: seq<B>): C
    decreases |input|
  {
    if input == [] then c else Feed(step, step(c, input[0]), input[1..])
  }

  function Shifts<C>(shift: C -> C, c: C, n: nat): C
    decreases n
  {
    if n == 0 then c else Shifts(shift, shift(c), n - 1)
  }

  /** The input as one word, the first item in front. */
  function Word<C, B>(join: (B, C) -> C, zero: C, input: seq<B>): C
    decreases |input|
  {
    if input == [] then zero else join(input[0], Word(join, zero, input[1..]))
  }

  lemma {:induction false} FeedConcat<C, B>(step: (C, B) -> C, c: C, input: seq<B>, more: seq<B>)
    ensures Feed(step, c, input + more) == Feed(step, Feed(step, c, input), more)
    decreases |input|
  {
    if input == [] {
      assert input + more == more;
    } else {
      FeedConcat(step, step(c, input[0]), input[1..], more);
      assert (input + more)[1..] == input[1..] + more;
    }
  }

  /** A register whose steps lose nothing loses nothing in the long run. */
  lemma {:induction false} FeedKeepsApart<C(!new), B(!new)>(step: (C, B) -> C, c: C, d: C, input: seq<B>)
    requires forall x, y, b :: step(x, b) == step(y, b) ==> x == y
    requires c != d
    ensures Feed(step, c, input) != Feed(step, d, input)
    decreases |input|
  {
    if input != [] {
      FeedKeepsApart(step, step(c, input[0]), step(d, input[0]), input[1..]);
    }
  }

  lemma {:induction false} ShiftsKeepApart<C(!new)>(shift: C -> C, c: C, d: C, n: nat)
    requires forall x, y :: shift(x) == shift(y) ==> x == y
    requires c != d
    ensures Shifts(shift, c, n) != Shifts(shift, d, n)
    decreases n
  {
    if n > 0 {
      ShiftsKeepApart(shift, shift(c), shift(d), n - 1);
    }
  }

  /** What a step may be for a short input: to add the rest of the input now and shift, or to
      take in the first item and add the rest then. */
  ghost predicate Postpones<C(!new), B(!new)>(
    step: (C, B) -> C, shift: C -> C, add: (C, C) -> C, join: (B, C) -> C, zero: C, limit: nat)
  {
    && (forall c :: add(c, zero) == c)
    && (forall c, b, rest: seq<B> :: |rest| < limit ==>
          shift(add(c, join(b, Word(join, zero, rest)))) == add(step(c, b), Word(join, zero, rest)))
  }

  /** Then a short input may be added all at once. */
  lemma {:induction false} FeedAtOnce<C(!new), B(!new)>(
    step: (C, B) -> C, shift: C -> C, add: (C, C) -> C, join: (B, C) -> C, zero: C, limit: nat, c: C, input: seq<B>)
    requires Postpones(step, shift, add, join, zero, limit) && |input| <= limit
    ensures Feed(step, c, input) == Shifts(shift, add(c, Word(join, zero, input)), |input|)
    decreases |input|
  {
    if input != [] {
      FeedAtOnce(step, shift, add, join, zero, limit, step(c, input[0]), input[1..]);
    }
  }

  /** Words of short inputs are different if the inputs are, given that a word can be taken
      apart again. */
  lemma {:induction false} WordsApart<C(!new), B(!new)>(
    join: (B, C) -> C, zero: C, first: C -> B, tail: C -> C, limit: nat, input: seq<B>, input': seq<B>)
    requires |input| == |input'| <= limit
    requires forall b, rest: seq<B> :: |rest| < limit ==>
               first(join(b, Word(join, zero, rest))) == b
               && tail(join(b, Word(join, zero, rest))) == Word(join, zero, rest)
    ensures Word(join, zero, input) == Word(join, zero, input') ==> input == input'
    decreases |input|
  {
    if input != [] {
      WordsApart(join, zero, first, tail, limit, input[1..], input'[1..]);
      var w, w' := Word(join, zero, input[1..]), Word(join, zero, input'[1..]);
      assert first(join(input[0], w)) == input[0] && tail(join(input[0], w)) == w;
      assert first(join(input'[0], w')) == input'[0] && tail(join(input'[0], w')) == w';
      assert input == [input[0]] + input[1..] && input' == [input'[0]] + input'[1..];
    }
  }

  lemma WordOfOneMore<C, B>(join: (B, C) -> C, zero: C, b: B, rest: seq<B>, input: seq<B>)
    requires input == [b] + rest
    ensures Word(join, zero, input) == join(b, Word(join, zero, rest))
  {
    assert ([b] + rest)[1..] == rest;
  }

  lemma WordOfEight<C, B>(join: (B, C) -> C, zero: C, input: seq<B>)
    requires |input| == 8
    ensures Word(join, zero, input) ==
            join(input[0], join(input[1], join(input[2], join(input[3],
            join(input[4], join(input[5], join(input[6], join(input[7], zero))))))))
  {
    WordOfOneMore(join, zero, input[7], [], input[7..]);
    WordOfOneMore(join, zero, input[6], input[7..], input[6..]);
    WordOfOneMore(join, zero, input[5], input[6..], input[5..]);
    WordOfOneMore(join, zero, input[4], input[5..], input[4..]);
    WordOfOneMore(join, zero, input[3], input[4..], input[3..]);
    WordOfOneMore(join, zero, input[2], input[3..], input[2..]);
    WordOfOneMore(join, zero, input[1], input[2..], input[1..]);
    WordOfOneMore(join, zero, input[0], input[1..], input);
  }

  function Flatten<A, B>(parts: A -> seq<B>, m: seq<A>): seq<B> {
    if m == [] then [] else parts(m[0]) + Flatten(parts, m[1..])
  }

  lemma {:induction false} FlattenConcat<A, B>(parts: A -> seq<B>, m: seq<A>, m': seq<A>)
    ensures Flatten(parts, m + m') == Flatten(parts, m) + Flatten(parts, m')
  {
    if m == [] {
      assert m + m' == m';
    } else {
      FlattenConcat(parts, m[1..], m');
      assert (m + m')[1..] == m[1..] + m';
      Regroup(parts(m[0]), Flatten(parts, m[1..]), Flatten(parts, m'));
    }
  }

  lemma Regroup<B>(s: seq<B>, t: seq<B>, u: seq<B>)
    ensures s + (t + u) == s + t + u
  {}

  /** One more item at the end, part by part. */
  lemma FeedOneMore<A, B, C>(step: (C, B) -> C, c: C, parts: A -> seq<B>, m: seq<A>, a: A)
    ensures Feed(step, c, Flatten(parts, m + [a])) == Feed(step, Feed(step, c, Flatten(parts, m)), parts(a))
  {
    FlattenConcat(parts, m, [a]);
    assert Flatten(parts, [a]) == parts(a);
    FeedConcat(step, c, Flatten(parts, m), parts(a));
  }

  lemma {:induction false} ShiftsAreLinear<C(!new)>(shift: C -> C, add: (C, C) -> C, c: C, d: C, n: nat)
    requires forall x, y :: shift(add(x, y)) == add(shift(x), shift(y))
    ensures Shifts(shift, add(c, d), n) == add(Shifts(shift, c, n), Shifts(shift, d, n))
    decreases n
  {
    if n > 0 {
      ShiftsAreLinear(shift, add, shift(c), shift(d), n - 1);
    }
  }
}
