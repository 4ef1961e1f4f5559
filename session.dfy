/** The command sequence of `search_signal_change`, as a function of the
    viewer's replies: what is sent, in which order, and when it stops. */
module Session {
  import opened Types
  import opened Replies
  import Escape

  /** The commands a composite operation sends, and how it ends. */
  datatype Run<T> = Run(sent: seq<Command>, result: Result<T>)

  /** `search_signal_change(signal, direction)` run against `host` on the
      interpreter `target`, when `n` commands have been sent before. */
  function SearchSignalChangeRun(host: HostReply, target: Option<string>, n: nat,
                                 signal: string, direction: string): Run<()>
  {
    var c0 := Command(target, "wvSetSearchMode", ["-anyChange"]);
    match Acknowledge(host(n, c0), "Could not set search mode.")
    case Err(f) => Run([c0], Err(f))
    case Ok(_) =>
      var rest := SearchAtCursorRun(host, target, n + 1, Escape.Escaped(signal), direction);
      Run([c0] + rest.sent, rest.result)
  }

  /** The part of `search_signal_change` after the search mode is set: read
      the cursor time, then search from it with the escaped signal. */
  function SearchAtCursorRun(host: HostReply, target: Option<string>, n: nat,
                             escSig: string, direction: string): Run<()>
  {
    var c1 := Command(target, "wvGetCursor", []);
    match DecodeCursor(host(n, c1))
    case Err(f) => Run([c1], Err(f))
    case Ok(cursor) =>
      var search := SearchFromRun(host, target, n + 1, escSig, direction, cursor.time);
      Run([c1] + search.sent, search.result)
  }

  /** The search step of `search_signal_change`, from the cursor time with
      the escaped signal: an illegal direction sends nothing; a match moves
      the cursor. */
  function SearchFromRun(host: HostReply, target: Option<string>, n: nat,
                         escSig: string, direction: string, time: string): Run<()>
  {
    match SearchCommand(direction)
    case Err(f) => Run([], Err(f))
    case Ok(name) =>
      var c2 := Command(target, name, SearchArgs(escSig, time));
      match DecodeSearchReply(host(n, c2))
      case Err(f) => Run([c2], Err(f))
      case Ok(newTime) =>
        var move := MoveCursorRun(host, target, n + 1, newTime);
        Run([c2] + move.sent, move.result)
  }

  /** The end of `search_signal_change`: with a new time, set the cursor to
      it and, if that succeeded, center the view; without one, send nothing. */
  function MoveCursorRun(host: HostReply, target: Option<string>, n: nat, newTime: Option<string>): Run<()>
  {
    match newTime
    case None => Run([], Ok(()))
    case Some(time) =>
      var c3 := Command(target, "wvSetCursor", [time]);
      match Acknowledge(host(n, c3), "wvSetCursor failure.")
      case Err(f) => Run([c3], Err(f))
      case Ok(_) =>
        var c4 := Command(target, "wvCenterCursor", []);
        Run([c3, c4], Acknowledge(host(n + 1, c4), "wvCenterCursor failure."))
  }

  /** The shape of every run: which command goes out at each step, the
      reply that lets the run go on, and how the run ends where it stops. */
  lemma SearchSignalChangeShape(host: HostReply, target: Option<string>, n: nat,
                                signal: string, direction: string, run: Run<()>)
    requires run == SearchSignalChangeRun(host, target, n, signal, direction)
    ensures 1 <= |run.sent| <= 5
    // the search mode is set first, then the cursor is read
    ensures run.sent[0] == Command(target, "wvSetSearchMode", ["-anyChange"])
    ensures |run.sent| >= 2 <==> host(n, run.sent[0]) != FailureReply
    ensures |run.sent| >= 2 ==> run.sent[1] == Command(target, "wvGetCursor", [])
    // the search is sent only for a legal direction, from the cursor time, with the escaped signal
    ensures |run.sent| >= 3 <==>
              |run.sent| >= 2 && DecodeCursor(host(n + 1, run.sent[1])).Ok? && SearchCommand(direction).Ok?
    ensures |run.sent| >= 3 ==>
              run.sent[2] == Command(target, SearchCommand(direction).value,
                                     SearchArgs(Escape.Escaped(signal), DecodeCursor(host(n + 1, run.sent[1])).value.time))
    // the cursor is moved only when the search found a time, and to that time
    ensures |run.sent| >= 4 <==>
              |run.sent| >= 3 && DecodeSearchReply(host(n + 2, run.sent[2])).Ok?
              && DecodeSearchReply(host(n + 2, run.sent[2])).value.Some?
    ensures |run.sent| >= 4 ==>
              run.sent[3] == Command(target, "wvSetCursor", [DecodeSearchReply(host(n + 2, run.sent[2])).value.value])
    // the view is centred only after the cursor move succeeded
    ensures |run.sent| == 5 <==> |run.sent| >= 4 && host(n + 3, run.sent[3]) != FailureReply
    ensures |run.sent| == 5 ==> run.sent[4] == Command(target, "wvCenterCursor", [])
    // how each stopping point ends
    ensures |run.sent| == 1 ==> run.result == Err(AssertionFailed("Could not set search mode."))
    ensures |run.sent| == 2 && DecodeCursor(host(n + 1, run.sent[1])).Err? ==>
              run.result == Err(DecodeCursor(host(n + 1, run.sent[1])).failure)
    ensures |run.sent| == 2 && DecodeCursor(host(n + 1, run.sent[1])).Ok? ==>
              run.result == Err(AssertionFailed("Illegal direction."))
    ensures |run.sent| == 3 ==> (run.result.Ok? <==> DecodeSearchReply(host(n + 2, run.sent[2])).Ok?)
    ensures |run.sent| == 3 && run.result.Err? ==> run.result == Err(IndexOutOfRange)
    ensures |run.sent| == 4 ==> run.result == Err(AssertionFailed("wvSetCursor failure."))
    ensures |run.sent| == 5 ==> run.result == Acknowledge(host(n + 4, run.sent[4]), "wvCenterCursor failure.")
  {
  }

  predicate MovesCursor(cmd: Command) {
    cmd.name == "wvSetCursor" || cmd.name == "wvCenterCursor"
  }

  /** No cursor command is sent unless the search returned a new time. */
  lemma CursorMovesOnlyOnMatch(host: HostReply, target: Option<string>, n: nat, signal: string, direction: string)
    ensures var run := SearchSignalChangeRun(host, target, n, signal, direction);
            (exists k :: 0 <= k < |run.sent| && MovesCursor(run.sent[k]))
            <==> |run.sent| >= 3 && DecodeSearchReply(host(n + 2, run.sent[2])) != Ok(None)
                 && DecodeSearchReply(host(n + 2, run.sent[2])).Ok?
  {
    var run := SearchSignalChangeRun(host, target, n, signal, direction);
    SearchSignalChangeShape(host, target, n, signal, direction, run);
    if |run.sent| >= 3 {
      var name := SearchCommand(direction).value;
      assert name == "wvSearchNextBySignal" || name == "wvSearchPrevBySignal";
      assert !MovesCursor(run.sent[2]);
    }
    if |run.sent| >= 4 {
      assert MovesCursor(run.sent[3]);
    }
  }
}
