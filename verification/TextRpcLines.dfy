/**
  The lines of the text RPC protocol (src/textRPC.c): how each message is written and how
  connection_sock_handler, handleReturn and call_threadFunc take it apart again.
 */
module TextRpcLines {
  import opened Wrappers
  import opened Text

  /** What a dispatch function yields: a result, which may be NULL, or an error. */
  datatype Reply = Value(text: Option<string>) | Raised(error: string)

  datatype Msg =
    | Request(version: int)           // protocolVersion-request
    | Version(version: int)           // protocolVersion
    | CallMsg(id: int, text: string)  // C
    | ReplyMsg(id: int, reply: Reply) // R or E

  /** Lines 428, 499, 1022-1026, 797-813; without the newline. */
  function Format(m: Msg): string {
    match m
    case Request(v) => "protocolVersion-request" + " " + IntToString(v)
    case Version(v) => "protocolVersion" + " " + IntToString(v)
    case CallMsg(id, text) => "C" + " " + (IntToString(id) + " " + text)
    case ReplyMsg(id, Value(None)) => "R" + " " + IntToString(id)
    case ReplyMsg(id, Value(Some(text))) => "R" + " " + (IntToString(id) + " " + text)
    case ReplyMsg(id, Raised(error)) => "E" + " " + (IntToString(id) + " " + error)
  }

  function Lower(s: string): string {
    seq(|s|, i requires 0 <= i < |s| => if 'A' <= s[i] <= 'Z' then s[i] - 'A' + 'a' else s[i])
  }

  /** strcasecmp( a, b ) == 0 */
  predicate SameIgnoringCase(a: string, b: string) { Lower(a) == Lower(b) }

  /** The same letter, one large and one small. */
  predicate OtherCase(large: char, small: char) { 'A' <= large <= 'Z' && small as int == large as int + 32 }

  /** Keywords are the same exactly if they differ in the case of letters at most. */
  lemma SameUpToCase(a: string, b: string)
    ensures SameIgnoringCase(a, b) <==>
              |a| == |b| && forall i :: 0 <= i < |a| ==> a[i] == b[i] || OtherCase(a[i], b[i]) || OtherCase(b[i], a[i])
  {
    if SameIgnoringCase(a, b) {
      assert |Lower(a)| == |a| && |Lower(b)| == |b|;
      forall i | 0 <= i < |a| ensures a[i] == b[i] || OtherCase(a[i], b[i]) || OtherCase(b[i], a[i]) {
        assert Lower(a)[i] == Lower(b)[i];
      }
    }
  }

  /** Lines 468-486, 539-557: a message to an endpoint that is still negotiating. */
  function ParseNegotiation(line: string): Option<Msg> {
    var first := Strsep(Some(line), {' '});
    var second := Strsep(first.rest, {' '});
    if second.token == None then None
    else if SameIgnoringCase(first.token.value, "protocolVersion-request")
    then Some(Request(Atoi(second.token.value)))
    else if SameIgnoringCase(first.token.value, "protocolVersion")
    then Some(Version(Atoi(second.token.value)))
    else None
  }

  /** Lines 591-641 with 780-785 (a call) and 717-747 (a return): a message to an endpoint
      that is running. */
  function ParseRunning(line: string): Option<Msg> {
    var first := Strsep(Some(line), {' '});
    var kind := first.token.value;
    if SameIgnoringCase(kind, "C") then
      var second := Strsep(first.rest, {' '});
      if second.rest == None then None
      else Some(CallMsg(Atoi(second.token.value), second.rest.value))
    else
      var second := Strsep(first.rest, {' ', '\t'});
      if second.token == None then None
      else if SameIgnoringCase(kind, "R")
      then Some(ReplyMsg(Atoi(second.token.value), Value(second.rest)))
      else if SameIgnoringCase(kind, "E") && second.rest.Some?
      then Some(ReplyMsg(Atoi(second.token.value), Raised(second.rest.value)))
      else None
  }

  lemma FirstWord(word: string, rest: string)
    requires ' ' !in word
    ensures Strsep(Some(word + " " + rest), {' '}) == Split(Some(word), Some(rest))
  {
    StrsepUndoesJoin(word, ' ', rest, {' '});
  }

  lemma DistinctKeywords()
    ensures !SameIgnoringCase("protocolVersion", "protocolVersion-request")
    ensures !SameIgnoringCase("R", "C") && !SameIgnoringCase("E", "C") && !SameIgnoringCase("E", "R")
  {
    assert |Lower("protocolVersion")| != |Lower("protocolVersion-request")|;
    assert Lower("R")[0] == 'r' && Lower("C")[0] == 'c' && Lower("E")[0] == 'e';
  }

  lemma VersionLineParses(v: int)
    ensures ParseNegotiation(Format(Version(v))) == Some(Version(v))
    ensures ParseNegotiation(Format(Request(v))) == Some(Request(v))
  {
    FirstWord("protocolVersion-request", IntToString(v));
    FirstWord("protocolVersion", IntToString(v));
    NumberWord(v, "", {' '});
    DistinctKeywords();
  }

  /** A running endpoint reads from a call or a return exactly what was written, whatever
      the text contains; a NULL result and an empty one stay apart. */
  lemma CallLineParses(id: int, text: string)
    ensures ParseRunning(Format(CallMsg(id, text))) == Some(CallMsg(id, text))
  {
    FirstWord("C", IntToString(id) + " " + text);
    NumberWord(id, text, {' '});
  }

  lemma ReplyLineParses(id: int, reply: Reply)
    ensures ParseRunning(Format(ReplyMsg(id, reply))) == Some(ReplyMsg(id, reply))
  {
    DistinctKeywords();
    match reply
    case Value(None) =>
      FirstWord("R", IntToString(id));
      NumberWord(id, "", {' ', '\t'});
    case Value(Some(text)) =>
      FirstWord("R", IntToString(id) + " " + text);
      NumberWord(id, text, {' ', '\t'});
    case Raised(error) =>
      FirstWord("E", IntToString(id) + " " + error);
      NumberWord(id, error, {' ', '\t'});
  }
}
