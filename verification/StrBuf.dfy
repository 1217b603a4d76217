/**
  The growing string buffer of src/strbuf.c and its formatting with quoted substrings.
 */
module StrBuf {
  import opened Wrappers
  import opened Text

  // ---------- quoting ----------

  function HexDigit(n: nat): char
    requires n < 16
  {
    if n < 10 then '0' + n as char else 'a' + (n - 10) as char
  }

  function HexValue(c: char): nat {
    if '0' <= c <= '9' then (c - '0') as nat else if 'a' <= c <= 'f' then (c - 'a') as nat + 10 else 0
  }

  /** printf("%2x") of a seven-bit character: padded with a space, not with a zero. */
  function Hex2(c: char): string
    requires c < 128 as char
  {
    [if c as int < 16 then ' ' else HexDigit(c as int / 16), HexDigit(c as int % 16)]
  }

  /** The characters that a quote string asks for are seven-bit ones. */
  type QuoteSet = q: set<char> | forall c :: c in q ==> c < 128 as char

  function QuoteChar(q: QuoteSet, c: char): (s: string)
    ensures c == '%' || c in q ==> |s| == 3 && s[0] == '%'
  {
    if c == '%' || c in q then ['%'] + Hex2(c) else [c]
  }

  function Quote(q: QuoteSet, s: string): string {
    if s == [] then [] else QuoteChar(q, s[0]) + Quote(q, s[1..])
  }

  /** Three characters from a percent sign on are one quoted character. */
  function Unquote(s: string): string
    decreases |s|
  {
    if s == [] then []
    else if s[0] == '%' && |s| >= 3 then [((HexValue(s[1]) * 16 + HexValue(s[2])) % 256) as char] + Unquote(s[3..])
    else [s[0]] + Unquote(s[1..])
  }

  lemma HexReadsBack(c: char)
    requires c < 128 as char
    ensures HexValue(Hex2(c)[0]) * 16 + HexValue(Hex2(c)[1]) == c as int
  {}

  /** Quoting loses nothing, whatever is quoted. */
  lemma {:induction false} UnquoteUndoesQuote(q: QuoteSet, s: string)
    ensures Unquote(Quote(q, s)) == s
  {
    if s != [] {
      var c, rest := s[0], Quote(q, s[1..]);
      UnquoteUndoesQuote(q, s[1..]);
      if c == '%' || c in q {
        HexReadsBack(c);
        assert (QuoteChar(q, c) + rest)[3..] == rest;
      } else {
        assert ([c] + rest)[1..] == rest;
      }
      assert [c] + s[1..] == s;
    }
  }

  /** A character of the quoted text is there unquoted, or it comes from an escape. */
  lemma {:induction false} QuotedFrom(q: QuoteSet, s: string, c: char)
    requires c != '%'
    ensures c in Quote(q, s) <==> (c !in q && c in s) || exists d :: d in s && (d == '%' || d in q) && c in Hex2(d)
  {
    if s != [] {
      var d, rest := s[0], s[1..];
      QuotedFrom(q, rest, c);
      assert s == [d] + rest;
      assert c in Quote(q, s) <==> c in QuoteChar(q, d) || c in Quote(q, rest);
    }
  }

  // ---------- formatting ----------

  datatype Arg = Num(value: int) | Str(text: string)

  /** The text written for a format, up to its end or to a format character other than d and s,
      which is an error. */
  datatype Expansion = Expansion(text: string, ok: bool)

  /** The format character asks for this kind of argument. */
  predicate Fits(c: char, args: seq<Arg>) {
    args != [] && (if c == 'd' then args[0].Num? else args[0].Str?)
  }

  predicate IsDirective(format: string) { |format| >= 2 && format[0] == '%' && (format[1] == 'd' || format[1] == 's') }

  /** The arguments are what the format asks for, as C demands of the caller. */
  predicate Matches(format: string, args: seq<Arg>) {
    if format == [] then true
    else if format[0] != '%' then Matches(format[1..], args)
    else if IsDirective(format) then Fits(format[1], args) && Matches(format[2..], args[1..])
    else true
  }

  function ArgText(q: Option<QuoteSet>, a: Arg): string {
    match a
    case Num(value) => IntToString(value)
    case Str(text) => if q == None then text else Quote(q.value, text)
  }

  function Expand(q: Option<QuoteSet>, format: string, args: seq<Arg>): Expansion
    requires Matches(format, args)
  {
    if format == [] then Expansion([], true)
    else if format[0] != '%' then Before([format[0]], Expand(q, format[1..], args))
    else if IsDirective(format) then Before(ArgText(q, args[0]), Expand(q, format[2..], args[1..]))
    else Expansion([], false)
  }

  function Before(text: string, e: Expansion): Expansion { Expansion(text + e.text, e.ok) }

  /** Text without percent signs stands for itself. */
  lemma {:induction false} PlainText(q: Option<QuoteSet>, plain: string, format: string, args: seq<Arg>)
    requires '%' !in plain && Matches(format, args)
    ensures Matches(plain + format, args)
    ensures Expand(q, plain + format, args) == Before(plain, Expand(q, format, args))
  {
    if plain == [] {
      assert plain + format == format;
    } else {
      PlainText(q, plain[1..], format, args);
      assert (plain + format)[1..] == plain[1..] + format;
      BeforeBefore([plain[0]], plain[1..], Expand(q, format, args));
      assert [plain[0]] + plain[1..] == plain;
    }
  }

  // ---------- the buffer ----------

  class StringBuffer {
    var string_: string // up to the cursor
    var bufferSize: int
    var bufferRemaining: int

    /** The invariant stated at the head of strbuf.c; the counters are unsigned in the source. */
    ghost predicate Valid()
      reads this
    {
      |string_| == bufferSize - bufferRemaining && bufferRemaining >= 0
    }

    /** strbuf_create */
    constructor (length: nat)
      ensures Valid() && string_ == [] && bufferSize == length
    {
      string_, bufferSize, bufferRemaining := [], length, length;
    }

    /** strbuf_enlarge: room for so many characters, by at least doubling if it is not there. */
    method Enlarge(minFreeSpace: nat)
      requires Valid()
      modifies this`bufferSize, this`bufferRemaining
      ensures Valid() && bufferRemaining >= minFreeSpace
      ensures old(bufferRemaining) > minFreeSpace ==> bufferSize == old(bufferSize)
      ensures old(bufferRemaining) <= minFreeSpace ==> bufferSize >= 2 * old(bufferSize)
    {
      if bufferRemaining <= minFreeSpace {
        var sizeIncrease := bufferSize;
        if sizeIncrease + bufferRemaining < minFreeSpace {
          sizeIncrease := minFreeSpace;
        }
        bufferSize := bufferSize + sizeIncrease;
        bufferRemaining := bufferRemaining + sizeIncrease;
      }
    }

    /** Characters written at the cursor, for which there is room. */
    method Put(text: string)
      requires Valid() && |text| <= bufferRemaining
      modifies this`string_, this`bufferRemaining
      ensures Valid() && string_ == old(string_) + text && bufferRemaining == old(bufferRemaining) - |text|
    {
      string_ := string_ + text;
      bufferRemaining := bufferRemaining - |text|;
    }

    /** strbuf_appendBinary */
    method AppendBinary(data: string)
      requires Valid()
      modifies this
      ensures Valid() && string_ == old(string_) + data && bufferSize >= old(bufferSize)
    {
      Enlarge(|data|);
      Put(data);
    }

    /** A character copied or quoted (195-211), with room left for the rest. */
    method PutQuotedChar(q: QuoteSet, c: char, remainToCopy: nat)
      requires Valid() && bufferRemaining >= remainToCopy > 0
      modifies this
      ensures Valid() && string_ == old(string_) + QuoteChar(q, c)
      ensures bufferRemaining >= remainToCopy - 1 && bufferSize >= old(bufferSize)
    {
      if c == '%' || c in q {
        if bufferRemaining < remainToCopy + 2 {
          Enlarge(remainToCopy + 2);
        }
        Put(['%'] + Hex2(c));
      } else {
        Put([c]);
      }
    }

    /** The case of a string argument to be quoted (182-213). The room for what is left to copy
        is there at every turn, so that the counter never goes below zero. */
    method PutQuoted(q: QuoteSet, tempString: string)
      requires Valid()
      modifies this
      ensures Valid() && string_ == old(string_) + Quote(q, tempString) && bufferSize >= old(bufferSize)
    {
      Enlarge(|tempString|);
      assert Quote(q, tempString[..0]) == [];
      for i := 0 to |tempString|
        invariant Valid() && bufferRemaining >= |tempString| - i && bufferSize >= old(bufferSize)
        invariant string_ == old(string_) + Quote(q, tempString[..i])
      {
        QuoteOneMore(q, tempString, i);
        PutQuotedChar(q, tempString[i], |tempString| - i);
      }
      assert tempString[..|tempString|] == tempString;
    }

    /** The cases of the format characters d and s (147-215). */
    method PutArg(q: Option<QuoteSet>, a: Arg)
      requires Valid()
      modifies this
      ensures Valid() && string_ == old(string_) + ArgText(q, a) && bufferSize >= old(bufferSize)
    {
      match a {
        case Num(value) =>
          var buffer := IntToString(value);
          Enlarge(|buffer|);
          Put(buffer);
        case Str(text) =>
          if q == None {
            Enlarge(|text|);
            Put(text);
          } else {
            PutQuoted(q.value, text);
          }
      }
    }

    /** strbuf_sprintfQuoteSubstrings2; TRUE if it returns no error. */
    method Sprintf(q: Option<QuoteSet>, format: string, args: seq<Arg>) returns (ok: bool)
      requires Valid() && Matches(format, args)
      modifies this
      ensures Valid() && bufferSize >= old(bufferSize)
      ensures Expansion(string_, ok) == Before(old(string_), Expand(q, format, args))
    {
      var format', args' := format, args;
      ok := true;
      while format' != [] && ok
        invariant Valid() && bufferSize >= old(bufferSize)
        invariant ok ==> Matches(format', args')
        invariant Before(old(string_), Expand(q, format, args)) ==
                  Before(string_, if ok then Expand(q, format', args') else Expansion([], false))
        decreases |format'|, ok
      {
        if format'[0] == '%' {
          if IsDirective(format') {
            BeforeBefore(string_, ArgText(q, args'[0]), Expand(q, format'[2..], args'[1..]));
            PutArg(q, args'[0]);
            format', args' := format'[2..], args'[1..];
          } else {
            ok := false;
          }
        } else {
          BeforeBefore(string_, [format'[0]], Expand(q, format'[1..], args'));
          if bufferRemaining == 0 {
            Enlarge(1);
          }
          assert bufferRemaining > 0;
          Put([format'[0]]);
          format' := format'[1..];
        }
      }
    }
  }

  lemma BeforeBefore(s: string, t: string, e: Expansion)
    ensures Before(s, Before(t, e)) == Before(s + t, e)
  {
    assert s + (t + e.text) == s + t + e.text;
  }

  lemma {:induction false} QuoteConcat(q: QuoteSet, s: string, t: string)
    ensures Quote(q, s + t) == Quote(q, s) + Quote(q, t)
  {
    if s == [] {
      assert s + t == t;
    } else {
      QuoteConcat(q, s[1..], t);
      assert (s + t)[1..] == s[1..] + t;
    }
  }

  lemma QuoteOneMore(q: QuoteSet, s: string, i: nat)
    requires i < |s|
    ensures Quote(q, s[..i + 1]) == Quote(q, s[..i]) + QuoteChar(q, s[i])
  {
    assert s[..i + 1] == s[..i] + [s[i]];
    QuoteConcat(q, s[..i], [s[i]]);
    assert Quote(q, [s[i]]) == QuoteChar(q, s[i]);
  }
}
