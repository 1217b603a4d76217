/**
  The small text machinery that the parsers of the library rest on: strsep
  (src/libcCompat.c), and the decimal notation of printf("%d") and atoi.
 */
module Text {
  import opened Wrappers

  /** strpbrk: the position of the first delimiter, or the length if there is none. */
  function Find(s: string, delims: set<char>): (k: nat)
    ensures k <= |s|
    ensures forall i :: 0 <= i < k ==> s[i] !in delims
    ensures k < |s| ==> s[k] in delims
  {
    if s == [] || s[0] in delims then 0 else 1 + Find(s[1..], delims)
  }

  datatype Split = Split(token: Option<string>, rest: Option<string>)

  /** strsep: cut off the first token; NULL stays NULL, and the rest is NULL if no delimiter
      was found. The token and the rest, with the delimiter between them, are the whole. */
  function Strsep(s: Option<string>, delims: set<char>): (r: Split)
    ensures r.token.Some? <==> s.Some?
    ensures r.token.Some? ==> forall c :: c in r.token.value ==> c !in delims
    ensures s.Some? && r.rest == None ==> r.token == s
    ensures r.rest.Some? ==> s.Some? && |r.token.value| < |s.value|
                             && s.value[|r.token.value|] in delims
                             && s.value == r.token.value + [s.value[|r.token.value|]] + r.rest.value
  {
    match s
    case None => Split(None, None)
    case Some(text) =>
      var k := Find(text, delims);
      if k == |text| then Split(s, None) else Split(Some(text[..k]), Some(text[k + 1..]))
  }

  lemma {:induction false} FindAt(token: string, tail: string, delims: set<char>)
    requires forall c :: c in token ==> c !in delims
    requires tail == [] || tail[0] in delims
    ensures Find(token + tail, delims) == |token|
  {
    if token == [] {
      assert token + tail == tail;
    } else {
      FindAt(token[1..], tail, delims);
      assert (token + tail)[1..] == token[1..] + tail;
    }
  }

  /** A token free of delimiters, a delimiter and anything at all: strsep gives them back. */
  lemma StrsepUndoesJoin(token: string, d: char, rest: string, delims: set<char>)
    requires d in delims && forall c :: c in token ==> c !in delims
    ensures Strsep(Some(token + [d] + rest), delims) == Split(Some(token), Some(rest))
    ensures Strsep(Some(token), delims) == Split(Some(token), None)
  {
    assert token + [d] + rest == token + ([d] + rest);
    FindAt(token, [d] + rest, delims);
    assert token + [] == token;
    FindAt(token, [], delims);
  }

  // ---- decimal numbers ---------------------------------------------------------------

  predicate IsDigit(c: char) { '0' <= c <= '9' }

  function Digit(n: nat): char
    requires n < 10
  {
    '0' + n as char
  }

  function DigitValue(c: char): nat
    requires IsDigit(c)
  {
    (c - '0') as nat
  }

  ghost predicate AllDigits(s: string) { forall i :: 0 <= i < |s| ==> IsDigit(s[i]) }

  /** No digit is written in front that is not needed. */
  function NatToString(n: nat): (s: string)
    ensures s != [] && AllDigits(s) && (s[0] == '0' ==> s == "0")
  {
    if n < 10 then [Digit(n)] else NatToString(n / 10) + [Digit(n % 10)]
  }

  /** printf("%d") */
  function IntToString(n: int): (s: string)
    ensures s != [] && (s[0] == '-' <==> n < 0) && forall c :: c in s ==> IsDigit(c) || c == '-'
  {
    if n < 0 then "-" + NatToString(-n) else NatToString(n)
  }

  function DigitPrefix(s: string): (k: nat)
    ensures k <= |s|
    ensures AllDigits(s[..k])
  {
    if s == [] || !IsDigit(s[0]) then 0 else 1 + DigitPrefix(s[1..])
  }

  function DigitsValue(s: string): nat
    requires AllDigits(s)
  {
    if s == [] then 0 else 10 * DigitsValue(s[..|s| - 1]) + DigitValue(s[|s| - 1])
  }

  function SkipSpace(s: string): string {
    if s != [] && s[0] in {' ', '\t', '\n', '\r'} then SkipSpace(s[1..]) else s
  }

  /** atoi: leading white space, an optional sign, then as many digits as there are. */
  function Atoi(s: string): int {
    var t := SkipSpace(s);
    if t != [] && t[0] == '-' then -(DigitsValue(t[1..][..DigitPrefix(t[1..])]) as int)
    else if t != [] && t[0] == '+' then DigitsValue(t[1..][..DigitPrefix(t[1..])])
    else DigitsValue(t[..DigitPrefix(t)])
  }

  lemma {:induction false} DigitPrefixOfDigits(s: string)
    requires AllDigits(s)
    ensures DigitPrefix(s) == |s|
  {
    if s != [] { DigitPrefixOfDigits(s[1..]); }
  }

  lemma {:induction false} DigitsValueOfNat(n: nat)
    ensures DigitsValue(NatToString(n)) == n
  {
    if n >= 10 {
      DigitsValueOfNat(n / 10);
      var s := NatToString(n);
      assert s[..|s| - 1] == NatToString(n / 10);
    } else {
      assert [Digit(n)][..0] == [];
    }
  }

  /** atoi reads back what printf("%d") wrote, negative numbers included. */
  lemma AtoiUndoesPrint(n: int)
    ensures Atoi(IntToString(n)) == n
  {
    var digits := NatToString(if n < 0 then -n else n);
    DigitPrefixOfDigits(digits);
    DigitsValueOfNat(if n < 0 then -n else n);
    assert digits[..|digits|] == digits;
    assert IsDigit(digits[0]);
    if n < 0 {
      assert ("-" + digits)[1..] == digits;
    }
  }

  /** A printed number is a word of its own for strsep, and atoi reads it back. */
  lemma NumberWord(n: int, rest: string, delims: set<char>)
    requires ' ' in delims && delims <= {' ', '\t'}
    ensures Strsep(Some(IntToString(n) + " " + rest), delims) == Split(Some(IntToString(n)), Some(rest))
    ensures Strsep(Some(IntToString(n)), delims) == Split(Some(IntToString(n)), None)
    ensures Atoi(IntToString(n)) == n
  {
    forall c | c in IntToString(n) ensures c !in delims {
      assert IsDigit(c) || c == '-';
    }
    StrsepUndoesJoin(IntToString(n), ' ', rest, delims);
    AtoiUndoesPrint(n);
  }
}
