/** Decoders for the viewer's textual replies. Each Verdi wrapper of
    `Interface` sends one command and reads the reply in one of these ways. */
module Replies {
  import opened Types
  import opened Text

  /** What `wvGetCursor` reports: the cursor time and the timescale. */
  datatype Cursor = Cursor(time: string, timescale: string)

  /** `wvGetActiveFileName`: any non-empty reply is the file name. */
  function DecodeActiveFileName(reply: string): (r: Result<string>)
    ensures r.Ok? <==> reply != []
    ensures r.Ok? ==> r.value == reply
    ensures r.Err? ==> r.failure == AssertionFailed("No fsdb filename returned.")
  {
    if |reply| != 0 then Ok(reply) else Err(AssertionFailed("No fsdb filename returned."))
  }

  /** `wvSetCursor`, `wvCenterCursor` and `wvSetSearchMode` only check that
      the reply is not the failure reply. */
  function Acknowledge(reply: string, message: string): (r: Result<()>)
    ensures r.Ok? <==> reply != FailureReply
    ensures r.Err? ==> r.failure == AssertionFailed(message)
  {
    if reply != FailureReply then Ok(()) else Err(AssertionFailed(message))
  }

  /** `wvGetCursor`: the reply "0" is a failure; otherwise the reply is
      split on single spaces and tokens 1 (time) and 3 (timescale) are
      taken, which fails for a reply with fewer than three spaces. */
  function DecodeCursor(reply: string): (r: Result<Cursor>)
    ensures r.Ok? <==> reply != FailureReply && SpaceCount(reply) >= 3
    ensures r.Err? && reply == FailureReply ==> r.failure == AssertionFailed("wvGetCursor failure.")
    ensures r.Err? && reply != FailureReply ==> r.failure == IndexOutOfRange
  {
    if reply == FailureReply then Err(AssertionFailed("wvGetCursor failure."))
    else
      var tokens := Split(reply);
      if |tokens| < 4 then Err(IndexOutOfRange) else Ok(Cursor(tokens[1], tokens[3]))
  }

  /** The words of a cursor reply that carries cursor `c`: a success flag,
      the time, a separator and the timescale, perhaps followed by more. */
  predicate CursorWords(tokens: seq<string>, c: Cursor) {
    |tokens| >= 4 && AllWords(tokens) && tokens[1] == c.time && tokens[3] == c.timescale
  }

  lemma FailureReplyIsOneWord()
    ensures Split(FailureReply) == [FailureReply]
  {
    SplitWord(FailureReply);
  }

  /** `DecodeCursor` yields `c` exactly for the replies that are space-joined
      words with `c.time` second and `c.timescale` fourth. */
  lemma CursorReplyIff(reply: string, c: Cursor)
    ensures DecodeCursor(reply) == Ok(c) <==> exists tokens :: CursorWords(tokens, c) && reply == Join(tokens)
  {
    if DecodeCursor(reply) == Ok(c) {
      SplitJoin(reply);
      assert CursorWords(Split(reply), c);
    }
    if tokens :| CursorWords(tokens, c) && reply == Join(tokens) {
      JoinSplit(tokens);
      FailureReplyIsOneWord();
      assert reply != FailureReply;
    }
  }

  /** `wvSearchNextBySignal` / `wvSearchPrevBySignal`: the only accepted
      directions, and the command name built from them. */
  function SearchCommand(direction: string): (r: Result<string>)
    ensures r.Ok? <==> direction == "Next" || direction == "Prev"
    ensures r.Ok? ==> r.value == "wvSearch" + direction + "BySignal"
    ensures r.Err? ==> r.failure == AssertionFailed("Illegal direction.")
  {
    if direction in {"Next", "Prev"} then Ok("wvSearch" + direction + "BySignal")
    else Err(AssertionFailed("Illegal direction."))
  }

  /** The command name tells which direction was asked for. */
  lemma SearchCommandInjective(a: string, b: string)
    requires SearchCommand(a).Ok? && SearchCommand(a) == SearchCommand(b)
    ensures a == b
  {
    var n := SearchCommand(a).value;
    assert a == n[8..12];
    assert b == n[8..12];
  }

  /** The arguments of a search: the (escaped) signal, the hierarchy
      delimiter option and the start time option. */
  function SearchArgs(signal: string, time: string): (args: seq<string>)
    ensures |args| == 3 && args[0] == signal
    ensures args[1] == "-delim /"
    ensures |args[2]| == 6 + |time| && args[2][..6] == "-time " && args[2][6..] == time
  {
    [signal, "-delim /", "-time " + time]
  }

  /** A search reply: "0" is "no match" (None); otherwise token 1 of the
      split is the new time, which fails for a reply without a space. */
  function DecodeSearchReply(reply: string): (r: Result<Option<string>>)
    ensures r == Ok(None) <==> reply == FailureReply
    ensures r.Err? <==> reply != FailureReply && SpaceCount(reply) == 0
    ensures r.Err? ==> r.failure == IndexOutOfRange
  {
    if reply == FailureReply then Ok(None)
    else
      var tokens := Split(reply);
      if |tokens| < 2 then Err(IndexOutOfRange) else Ok(Some(tokens[1]))
  }

  predicate SearchWords(tokens: seq<string>, time: string) {
    |tokens| >= 2 && AllWords(tokens) && tokens[1] == time
  }

  /** `DecodeSearchReply` finds `time` exactly for the replies that are
      space-joined words with `time` second. */
  lemma SearchReplyIff(reply: string, time: string)
    ensures DecodeSearchReply(reply) == Ok(Some(time)) <==> exists tokens :: SearchWords(tokens, time) && reply == Join(tokens)
  {
    if DecodeSearchReply(reply) == Ok(Some(time)) {
      SplitJoin(reply);
      assert SearchWords(Split(reply), time);
    }
    if tokens :| SearchWords(tokens, time) && reply == Join(tokens) {
      JoinSplit(tokens);
      FailureReplyIsOneWord();
      assert reply != FailureReply;
    }
  }
}
