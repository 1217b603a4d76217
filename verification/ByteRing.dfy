/**
  The ring buffer of src/byteQueueC.c and src/byteQueue.cpp. `head` is where to read, `tail`
  where to write; `isFull` tells a full ring from an empty one when the two are equal.
 */
module ByteRing {
  newtype byte = x: int | 0 <= x < 256

  function Min(a: nat, b: nat): nat { if a < b then a else b }

  /** The part of data that a queue with this much room takes: all of it, or as much as fits. */
  function Fitting(room: nat, data: seq<byte>): (taken: seq<byte>)
    ensures taken <= data && |taken| <= room && (taken == data || |taken| == room)
  {
    data[..Min(room, |data|)]
  }

  /** The bytes in a ring, oldest first. */
  function Content(b: seq<byte>, head: nat, tail: nat, full: bool): seq<byte>
    requires head < |b| && tail < |b|
  {
    if head < tail then b[head..tail]
    else if head == tail && !full then []
    else b[head..] + b[..tail]
  }

  /** One memcpy into the buffer. */
  function Patched(b: seq<byte>, at: nat, chunk: seq<byte>): seq<byte>
    requires at + |chunk| <= |b|
  {
    b[..at] + chunk + b[at + |chunk|..]
  }

  function Wrap(i: nat, size: nat): nat { if i == size then 0 else i }

  /** Copying a block to the tail appends it. */
  lemma BlockWritten(b: seq<byte>, head: nat, tail: nat, chunk: seq<byte>)
    requires head < |b| && tail < |b| && chunk != []
    requires tail + |chunk| <= if head > tail then head else |b|
    ensures var tail' := Wrap(tail + |chunk|, |b|);
            Content(Patched(b, tail, chunk), head, tail', head == tail')
            == Content(b, head, tail, false) + chunk
  {
    var b' := Patched(b, tail, chunk);
    var tail' := Wrap(tail + |chunk|, |b|);
    if head > tail {
      assert b'[head..] == b[head..];
      assert b'[..tail'] == b[..tail] + chunk;
    } else if tail' == 0 {
      assert b'[head..] == b[head..tail] + chunk;
      assert b'[head..] + b'[..0] == b'[head..];
    } else {
      assert b'[head..tail'] == b[head..tail] + chunk;
    }
  }

  /** Copying a block from the head removes it. */
  lemma BlockRead(b: seq<byte>, head: nat, tail: nat, full: bool, n: nat)
    requires head < |b| && tail < |b| && (full ==> head == tail) && n > 0
    requires head == tail ==> full
    requires head + n <= if tail <= head then |b| else tail
    ensures Content(b, head, tail, full) == b[head..head + n] + Content(b, Wrap(head + n, |b|), tail, false)
  {
    var head' := Wrap(head + n, |b|);
    if tail <= head {
      if head' == 0 {
        assert b[head..head + n] == b[head..];
        assert Content(b, 0, tail, false) == b[..tail];
      } else {
        assert b[head..] == b[head..head + n] + b[head'..];
      }
    } else {
      assert b[head..tail] == b[head..head + n] + b[head'..tail];
    }
  }

  /** memcpy to a place in the buffer. */
  method MemCpy(buffer: array<byte>, at: nat, chunk: seq<byte>)
    requires at + |chunk| <= buffer.Length
    modifies buffer
    ensures buffer[..] == Patched(old(buffer[..]), at, chunk)
  {
    forall i | 0 <= i < |chunk| {
      buffer[at + i] := chunk[i];
    }
  }

  function Upto(before: seq<byte>, data: seq<byte>, done: nat): (s: seq<byte>)
    requires done <= |data|
    ensures |s| == |before| + done
  {
    before + data[..done]
  }

  lemma UptoMore(before: seq<byte>, data: seq<byte>, done: nat, n: nat)
    requires done + n <= |data|
    ensures Upto(before, data, done) + data[done..][..n] == Upto(before, data, done + n)
  {
    assert data[..done + n] == data[..done] + data[done..][..n];
  }

  class Ring {
    const buffer: array<byte>
    var head: nat
    var tail: nat
    var isFull: bool

    ghost predicate Valid()
      reads this
    {
      && head < buffer.Length && tail < buffer.Length
      && (isFull ==> head == tail)
    }

    ghost function Contents(): (s: seq<byte>)
      requires Valid()
      reads this, buffer
      ensures |s| <= buffer.Length
      ensures s == [] <==> head == tail && !isFull
      ensures |s| == buffer.Length <==> isFull
    {
      Content(buffer[..], head, tail, isFull)
    }

    constructor (size: nat)
      requires size != 0
      ensures Valid() && Contents() == [] && buffer.Length == size && fresh(buffer)
    {
      buffer := new byte[size];
      head, tail, isFull := 0, 0, false;
    }

    /** Lines 146-169 of byteQueueC.c: one memcpy to the tail. */
    method CopyIn(data: seq<byte>) returns (n: nat)
      requires Valid() && !isFull && data != []
      modifies this`tail, this`isFull, buffer
      ensures Valid()
      ensures 0 < n <= |data|
      ensures Contents() == old(Contents()) + data[..n]
      ensures n < |data| ==> isFull || tail == 0
      ensures n < |data| && old(tail) == 0 ==> isFull
    {
      n := if head > tail then head - tail else buffer.Length - tail;
      if n > |data| {
        n := |data|;
      }
      BlockWritten(buffer[..], head, tail, data[..n]);
      MemCpy(buffer, tail, data[..n]);
      tail := tail + n;
      if tail == buffer.Length {
        tail := 0;
      }
      if head == tail {
        isFull := true;
      }
    }

    /** Lines 130-177 of byteQueueC.c. `broadcast` tells whether the condition is broadcast;
        `copies` counts the calls of memcpy. */
    method WriteData(data: seq<byte>) returns (noDrop: bool, broadcast: bool, copies: nat)
      requires Valid()
      modifies this`tail, this`isFull, buffer
      ensures Valid()
      ensures Contents() == old(Contents()) + Fitting(buffer.Length - old(|Contents()|), data)
      ensures noDrop <==> |data| <= buffer.Length - old(|Contents()|)
      ensures broadcast <==> old(Contents()) == [] && data != []
      ensures copies <= 2
    {
      var wasEmpty := head == tail && !isFull;
      var done := 0;
      noDrop, broadcast, copies := true, false, 0;
      ghost var before := Contents();
      while done < |data|
        invariant Valid() && done <= |data|
        invariant Contents() == Upto(before, data, done)
        invariant wasEmpty <==> before == [] && done == 0
        invariant broadcast <==> before == [] && done > 0
        invariant copies == 0 <==> done == 0
        invariant copies == 1 && done < |data| ==> isFull || tail == 0
        invariant copies == 2 && done < |data| ==> isFull
        invariant copies <= 2
      {
        if isFull && head == tail {
          noDrop := false;
          break;
        }
        var n := CopyIn(data[done..]);
        UptoMore(before, data, done, n);
        done, copies := done + n, copies + 1;
        if wasEmpty {
          broadcast := true;
          wasEmpty := false;
        }
      }
      assert done < |data| ==> |before| + done == buffer.Length;
    }

    /** Lines 297-320 of byteQueueC.c: one memcpy from the head. */
    method CopyOut(request: nat) returns (out: seq<byte>)
      requires Valid() && Contents() != [] && request > 0
      modifies this`head, this`isFull
      ensures Valid()
      ensures 0 < |out| <= Min(request, |old(Contents())|)
      ensures out == old(Contents())[..|out|] && Contents() == old(Contents())[|out|..]
    {
      var n := if tail <= head then buffer.Length - head else tail - head;
      if n > request {
        n := request;
      }
      BlockRead(buffer[..], head, tail, isFull, n);
      out := buffer[head..head + n];
      if head == tail {
        isFull := false;
      }
      head := head + n;
      if head == buffer.Length {
        head := 0;
      }
    }

    /** The loop of ByteQueue_readData (272-322) from one wait to the next: it stops when the
        request is met or the ring is empty. */
    method Drain(request: nat) returns (out: seq<byte>)
      requires Valid()
      modifies this`head, this`isFull
      ensures Valid()
      ensures |out| == Min(request, |old(Contents())|)
      ensures out == old(Contents())[..|out|] && Contents() == old(Contents())[|out|..]
    {
      out := [];
      ghost var before := Contents();
      while |out| < request && !(head == tail && !isFull)
        invariant Valid()
        invariant |out| <= Min(request, |before|)
        invariant out == before[..|out|] && Contents() == before[|out|..]
        decreases request - |out|
      {
        var block := CopyOut(request - |out|);
        out := out + block;
      }
    }
  }
}
