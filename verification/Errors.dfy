/**
  The error records of src/err.c as text: ErrToString, which writes a chain of errors so that it
  can be read back, and ErrToHumanReadableString, which fills a buffer of exactly the right size.
 */
module Errors {
  import opened Wrappers
  import opened Text
  import opened StrBuf

  datatype Err = Err(kind: int, number: int, description: string, reason: Option<Err>)

  // ---------- ErrToString ----------

  /** The quote string of ErrToString. */
  const QUOTED: QuoteSet := {' ', '\n', '\r', '\''}

  function MarshalHead(kind: int, number: int, description: string): string {
    "Error( " + (IntToString(kind) + " " + (IntToString(number) + " " +
      ("'" + (Quote(QUOTED, description) + "'" + " "))))
  }

  /** What ErrToString writes. */
  function Marshal(e: Err): string
    decreases e, 1
  {
    MarshalHead(e.kind, e.number, e.description) + MarshalReason(e.reason) + " )"
  }

  function MarshalReason(reason: Option<Err>): string
    decreases reason, 0
  {
    match reason
    case None => "NULL"
    case Some(r) => Marshal(r)
  }

  // ---------- a decoder ----------

  datatype Head = Head(kind: int, number: int, description: string, rest: string)
  datatype Decoded = Decoded(error: Err, rest: string)

  function Skip(prefix: string, text: string): (r: Option<string>)
    ensures r.Some? ==> text == prefix + r.value
    ensures prefix <= text ==> r.Some?
  {
    if prefix <= text then Some(text[|prefix|..]) else None
  }

  function DecodeHead(text: string): (r: Option<Head>)
    ensures r.Some? ==> |r.value.rest| < |text|
  {
    var s0 := Skip("Error( ", text);
    if s0 == None then None else
    var s1 := Strsep(s0, {' '});
    var s2 := Strsep(s1.rest, {' '});
    if s2.rest == None then None else
    var s3 := Skip("'", s2.rest.value);
    var s4 := Strsep(s3, {'\''});
    if s4.rest == None then None else
    var s5 := Skip(" ", s4.rest.value);
    if s5 == None then None
    else Some(Head(Atoi(s1.token.value), Atoi(s2.token.value), Unquote(s4.token.value), s5.value))
  }

  function Finish(head: Head, reason: Option<Err>, rest: string): Option<Decoded> {
    var end := Skip(" )", rest);
    if end == None then None else Some(Decoded(Err(head.kind, head.number, head.description, reason), end.value))
  }

  function Decode(text: string): Option<Decoded>
    decreases |text|
  {
    var head := DecodeHead(text);
    if head == None then None else
    var nil := Skip("NULL", head.value.rest);
    if nil.Some? then Finish(head.value, None, nil.value) else
    var reason := Decode(head.value.rest);
    if reason == None then None else Finish(head.value, Some(reason.value.error), reason.value.rest)
  }

  // ---------- the text is decodable ----------

  lemma SkipJoined(prefix: string, rest: string)
    ensures Skip(prefix, prefix + rest) == Some(rest)
  {}

  /** No raw apostrophe remains inside a description. */
  lemma {:induction false} NoApostrophe(s: string)
    ensures '\'' !in Quote(QUOTED, s)
  {
    if s != [] { NoApostrophe(s[1..]); }
  }

  lemma HeadSplits(kind: int, number: int, description: string, rest: string)
    ensures MarshalHead(kind, number, description) + rest ==
            "Error( " + (IntToString(kind) + " " + (IntToString(number) + " " +
              ("'" + (Quote(QUOTED, description) + "'" + (" " + rest)))))
  {
    var k, n, d := IntToString(kind), IntToString(number), Quote(QUOTED, description);
    assert d + "'" + " " + rest == d + "'" + (" " + rest);
    assert n + " " + ("'" + (d + "'" + " ")) + rest == n + " " + ("'" + (d + "'" + (" " + rest)));
    assert k + " " + (n + " " + ("'" + (d + "'" + " "))) + rest ==
           k + " " + (n + " " + ("'" + (d + "'" + (" " + rest))));
  }

  lemma HeadByStages(text: string, t0: string, k: string, t1: string, n: string, t2: string, t3: string, d: string,
                     t4: string, rest: string)
    requires Skip("Error( ", text) == Some(t0)
    requires Strsep(Some(t0), {' '}) == Split(Some(k), Some(t1)) && Strsep(Some(t1), {' '}) == Split(Some(n), Some(t2))
    requires Skip("'", t2) == Some(t3) && Strsep(Some(t3), {'\''}) == Split(Some(d), Some(t4))
             && Skip(" ", t4) == Some(rest)
    ensures DecodeHead(text) == Some(Head(Atoi(k), Atoi(n), Unquote(d), rest))
  {
  }

  lemma HeadReadsBack(kind: int, number: int, description: string, rest: string)
    ensures DecodeHead(MarshalHead(kind, number, description) + rest) == Some(Head(kind, number, description, rest))
  {
    var k, n, d := IntToString(kind), IntToString(number), Quote(QUOTED, description);
    var t3 := d + "'" + (" " + rest);
    var t1 := n + " " + ("'" + t3);
    HeadSplits(kind, number, description, rest);
    SkipJoined("Error( ", k + " " + t1);
    NumberWord(kind, t1, {' '});
    NumberWord(number, "'" + t3, {' '});
    SkipJoined("'", t3);
    NoApostrophe(description);
    StrsepUndoesJoin(d, '\'', " " + rest, {'\''});
    SkipJoined(" ", rest);
    HeadByStages("Error( " + (k + " " + t1), k + " " + t1, k, t1, n, "'" + t3, t3, d, " " + rest, rest);
    UnquoteUndoesQuote(QUOTED, description);
  }

  lemma StartsAsError(e: Err, rest: string)
    ensures Skip("NULL", Marshal(e) + rest) == None
  {
    assert (Marshal(e) + rest)[0] == 'E';
    assert "NULL"[0] == 'N';
  }

  /** One level of the decoder. */
  lemma DecodesLevel(e: Err, after: string, rest: string)
    requires after == MarshalReason(e.reason) + (" )" + rest)
    requires e.reason.Some? ==> Decode(after) == Some(Decoded(e.reason.value, " )" + rest))
    ensures Decode(MarshalHead(e.kind, e.number, e.description) + after) == Some(Decoded(e, rest))
  {
    HeadReadsBack(e.kind, e.number, e.description, after);
    if e.reason.Some? {
      StartsAsError(e.reason.value, " )" + rest);
    } else {
      SkipJoined("NULL", " )" + rest);
    }
    SkipJoined(" )", rest);
  }

  lemma LevelSplits(head: string, reason: string, end: string, rest: string)
    ensures head + reason + end + rest == head + (reason + (end + rest))
  {}

  /** ErrToString loses nothing: every chain of errors is read back from its text, and what
      follows the text is left alone. */
  lemma {:induction false} DecodeUndoesMarshal(e: Err, rest: string)
    ensures Decode(Marshal(e) + rest) == Some(Decoded(e, rest))
    decreases e
  {
    if e.reason.Some? {
      DecodeUndoesMarshal(e.reason.value, " )" + rest);
    }
    LevelSplits(MarshalHead(e.kind, e.number, e.description), MarshalReason(e.reason), " )", rest);
    DecodesLevel(e, MarshalReason(e.reason) + (" )" + rest), rest);
  }

  /** The comment on ErrToString promises that spaces are quoted. A description does come out
      without spaces, exactly if it has no newline and no carriage return, whose own escapes are
      padded with a space. */
  lemma SpacesQuotedExactly(s: string)
    ensures ' ' in Quote(QUOTED, s) <==> '\n' in s || '\r' in s
  {
    QuotedFrom(QUOTED, s, ' ');
    forall d | d in s && (d == '%' || d in QUOTED) ensures ' ' in Hex2(d) <==> d == '\n' || d == '\r' {
      assert ' ' == Hex2(d)[0] <==> d == '\n' || d == '\r';
      assert Hex2(d)[1] != ' ';
    }
    if '\n' in s { assert Hex2('\n')[0] == ' '; }
    if '\r' in s { assert Hex2('\r')[0] == ' '; }
  }

  lemma NewlineEscape()
    ensures Quote(QUOTED, "\n") == "% a"
  {
    assert Quote(QUOTED, []) == [];
  }

  // ---------- the writer ----------

  /** Plain text, a format character and the rest of a format. */
  lemma Piece(q: Option<QuoteSet>, plain: string, c: char, a: Arg, format: string, args: seq<Arg>, whole: string,
              allArgs: seq<Arg>)
    requires '%' !in plain && ((c == 'd' && a.Num?) || (c == 's' && a.Str?)) && Matches(format, args)
    requires whole == plain + (['%', c] + format) && allArgs == [a] + args
    ensures Matches(whole, allArgs)
    ensures Expand(q, whole, allArgs) == Before(plain + ArgText(q, a), Expand(q, format, args))
  {
    var directive := ['%', c] + format;
    assert directive[2..] == format && allArgs[1..] == args;
    PlainText(q, plain, directive, allArgs);
    BeforeBefore(plain, ArgText(q, a), Expand(q, format, args));
  }

  lemma PlainFormat(q: Option<QuoteSet>, plain: string)
    requires '%' !in plain
    ensures Matches(plain, []) && Expand(q, plain, []) == Expansion(plain, true)
  {
    PlainText(q, plain, [], []);
    assert plain + [] == plain;
  }

  const HEAD_FORMAT := "Error( %d %d '%s' "
  const NUMBER_FORMAT := " %d '%s' " // from the second number on
  const DESCRIPTION_FORMAT := " '%s' " // from the description on

  lemma DescriptionFormat(q: Option<QuoteSet>, description: string)
    ensures Matches(DESCRIPTION_FORMAT, [Str(description)])
    ensures Expand(q, DESCRIPTION_FORMAT, [Str(description)]) ==
            Expansion(" '" + ArgText(q, Str(description)) + "' ", true)
  {
    PlainFormat(q, "' ");
    Piece(q, " '", 's', Str(description), "' ", [], DESCRIPTION_FORMAT, [Str(description)]);
  }

  lemma NumberFormat(q: Option<QuoteSet>, number: int, description: string)
    ensures Matches(NUMBER_FORMAT, [Num(number), Str(description)])
    ensures Expand(q, NUMBER_FORMAT, [Num(number), Str(description)]) ==
            Expansion(" " + IntToString(number) + (" '" + ArgText(q, Str(description)) + "' "), true)
  {
    DescriptionFormat(q, description);
    Piece(q, " ", 'd', Num(number), DESCRIPTION_FORMAT, [Str(description)], NUMBER_FORMAT,
          [Num(number), Str(description)]);
  }

  lemma HeadFormat(kind: int, number: int, description: string)
    ensures Matches(HEAD_FORMAT, [Num(kind), Num(number), Str(description)])
    ensures Expand(Some(QUOTED), HEAD_FORMAT, [Num(kind), Num(number), Str(description)]) ==
            Expansion(MarshalHead(kind, number, description), true)
  {
    var q: Option<QuoteSet>, args := Some(QUOTED), [Num(number), Str(description)];
    NumberFormat(q, number, description);
    Piece(q, "Error( ", 'd', Num(kind), NUMBER_FORMAT, args, HEAD_FORMAT, [Num(kind), Num(number), Str(description)]);
    HeadRegroups(IntToString(kind), IntToString(number), Quote(QUOTED, description));
  }

  lemma HeadRegroups(k: string, n: string, d: string)
    ensures "Error( " + k + (" " + n + (" '" + d + "' ")) == "Error( " + (k + " " + (n + " " + ("'" + (d + "'" + " "))))
  {
  }

  method PutHead(kind: int, number: int, description: string, strbuf: StringBuffer) returns (ok: bool)
    requires strbuf.Valid()
    modifies strbuf
    ensures strbuf.Valid() && ok && strbuf.string_ == old(strbuf.string_) + MarshalHead(kind, number, description)
  {
    HeadFormat(kind, number, description);
    ok := strbuf.Sprintf(Some(QUOTED), HEAD_FORMAT, [Num(kind), Num(number), Str(description)]);
  }

  method PutPlain(plain: string, strbuf: StringBuffer) returns (ok: bool)
    requires strbuf.Valid() && '%' !in plain
    modifies strbuf
    ensures strbuf.Valid() && ok && strbuf.string_ == old(strbuf.string_) + plain
  {
    PlainFormat(None, plain);
    ok := strbuf.Sprintf(None, plain, []);
  }

  lemma Regroup(s: string, head: string, reason: string, end: string)
    ensures s + head + reason + end == s + (head + reason + end)
  {
  }

  method PutReason(reason: Option<Err>, strbuf: StringBuffer) returns (ok: bool)
    requires strbuf.Valid()
    modifies strbuf
    ensures strbuf.Valid() && ok && strbuf.string_ == old(strbuf.string_) + MarshalReason(reason)
    decreases reason, 0
  {
    match reason {
      case None => ok := PutPlain("NULL", strbuf);
      case Some(r) => ok := ErrToString(r, strbuf);
    }
  }

  /** ErrToString */
  method ErrToString(e: Err, strbuf: StringBuffer) returns (ok: bool)
    requires strbuf.Valid()
    modifies strbuf
    ensures strbuf.Valid() && ok && strbuf.string_ == old(strbuf.string_) + Marshal(e)
    decreases e, 1
  {
    Regroup(strbuf.string_, MarshalHead(e.kind, e.number, e.description), MarshalReason(e.reason), " )");
    ok := PutHead(e.kind, e.number, e.description, strbuf);
    if ok {
      ok := PutReason(e.reason, strbuf);
    }
    if ok {
      ok := PutPlain(" )", strbuf);
    }
  }

  // ---------- ErrToHumanReadableString ----------

  const BECAUSE := ", because " // ERR_BECAUSE_STR

  /** The descriptions of a chain, one after the other. */
  function Human(e: Err): string {
    e.description + (match e.reason case None => "" case Some(r) => BECAUSE + Human(r))
  }

  /** calculateHumanReadableStringLength */
  function HumanLength(e: Err): (n: nat)
    ensures n == |Human(e)|
  {
    |e.description| + (match e.reason case None => 0 case Some(r) => |BECAUSE| + HumanLength(r))
  }

  /** strcpy, strcat and strncpy into a buffer: the characters and the terminator. */
  method CopyInto(buffer: array<char>, at: nat, text: string)
    requires at + |text| < buffer.Length
    modifies buffer
    ensures buffer[..at] == old(buffer[..at]) && buffer[at..at + |text|] == text && buffer[at + |text|] == '\0'
  {
    for i := 0 to |text|
      invariant buffer[..at] == old(buffer[..at]) && buffer[at..at + i] == text[..i]
    {
      buffer[at + i] := text[i];
    }
    buffer[at + |text|] := '\0';
  }

  /** writeHumanReadableString: its assertion holds, and the buffer is filled to the last
      character, with nothing written past its end. */
  method WriteHuman(e: Err, buffer: array<char>, at: nat, remainingLength: nat)
    requires at + remainingLength + 1 == buffer.Length && remainingLength == |BECAUSE| + HumanLength(e)
    modifies buffer
    ensures buffer[..] == old(buffer[..at]) + BECAUSE + Human(e) + ['\0']
    decreases e
  {
    assert remainingLength >= |BECAUSE| + |e.description|;
    var text := BECAUSE + e.description;
    CopyInto(buffer, at, text);
    var addedLength := |text|;
    assert buffer[..at + addedLength] == old(buffer[..at]) + text;
    match e.reason {
      case None => assert buffer[..] == buffer[..at + addedLength] + ['\0'];
      case Some(r) => WriteHuman(r, buffer, at + addedLength, remainingLength - addedLength);
    }
  }

  /** ErrToHumanReadableString: a string of exactly the allocated size. */
  method ErrToHumanReadableString(e: Err) returns (buffer: array<char>)
    ensures fresh(buffer) && buffer[..] == Human(e) + ['\0']
  {
    var stringLength := HumanLength(e);
    buffer := new char[stringLength + 1](_ => '\0');
    CopyInto(buffer, 0, e.description);
    assert buffer[..|e.description|] == e.description;
    match e.reason {
      case None => assert buffer[..] == buffer[..|e.description|] + ['\0'];
      case Some(r) => WriteHuman(r, buffer, |e.description|, stringLength - |e.description|);
    }
  }

  // ---------- ErrCopy ----------

  /** An error record in memory, which is not changed once it is built. */
  class Record {
    const kind: int
    const number: int
    const description: string
    const reason: Record?

    constructor (kind: int, number: int, description: string, reason: Record?)
      ensures this.kind == kind && this.number == number && this.description == description && this.reason == reason
    {
      this.kind, this.number, this.description, this.reason := kind, number, description, reason;
    }
  }

  /** The record is the head of this chain of errors. */
  ghost predicate Represents(n: Record?, e: Option<Err>) {
    match e
    case None => n == null
    case Some(x) =>
      n != null && n.kind == x.kind && n.number == x.number && n.description == x.description
      && Represents(n.reason, x.reason)
  }

  ghost function Records(n: Record?, e: Option<Err>): set<Record>
    requires Represents(n, e)
  {
    match e
    case None => {}
    case Some(x) => {n} + Records(n.reason, x.reason)
  }

  /** ErrCopy: an equal chain that shares no record with the original. */
  method ErrCopy(original: Record, ghost e: Err) returns (copy: Record)
    requires Represents(original, Some(e))
    ensures Represents(copy, Some(e)) && fresh(Records(copy, Some(e)))
    decreases e
  {
    var reason := null;
    if original.reason != null {
      reason := ErrCopy(original.reason, e.reason.value);
    }
    copy := new Record(original.kind, original.number, original.description, reason);
  }
}
