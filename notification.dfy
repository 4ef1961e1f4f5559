/** The cursor-time-change relay: the viewer calls back with a reason and
    the cursor time, and the time is handed to every registered work item. */
module Notification {
  import opened Types

  /** A caller-supplied work function, known here only by its identity. */
  type WorkId = nat

  /** One call of a work function with the cursor time. */
  datatype Invocation = Invocation(work: WorkId, time: string)

  /** The only callback reason the relay accepts. */
  const CursorTimeChange: string := "wvCursorTimeChange"

  /** Every work item, in list order, called with `time`. */
  function Fanout(workList: seq<WorkId>, time: string): (calls: seq<Invocation>)
    ensures |calls| == |workList|
    ensures forall i :: 0 <= i < |workList| ==> calls[i] == Invocation(workList[i], time)
  {
    if workList == [] then []
    else Fanout(workList[..|workList| - 1], time) + [Invocation(workList[|workList| - 1], time)]
  }

  /** What one callback `args` does: it fails on a missing or unknown reason
      without calling anything, and also when there is work to call but no
      time argument; otherwise it calls each work item once, in order, with
      the time `args[1]`. */
  function TimeChangeRelay(workList: seq<WorkId>, args: seq<string>): (r: Result<seq<Invocation>>)
    ensures r.Ok? <==> |args| > 0 && args[0] == CursorTimeChange && (workList == [] || |args| >= 2)
    ensures |args| > 0 && args[0] != CursorTimeChange ==> r == Err(AssertionFailed("Unknown callback reason."))
    ensures r.Err? && (|args| == 0 || args[0] == CursorTimeChange) ==> r == Err(IndexOutOfRange)
    ensures r.Ok? ==> |r.value| == |workList|
    ensures r.Ok? ==> forall i :: 0 <= i < |workList| ==> r.value[i] == Invocation(workList[i], args[1])
  {
    if |args| == 0 then Err(IndexOutOfRange)
    else if args[0] != CursorTimeChange then Err(AssertionFailed("Unknown callback reason."))
    else if workList == [] then Ok([])
    else if |args| < 2 then Err(IndexOutOfRange)
    else Ok(Fanout(workList, args[1]))
  }

  /** Work added later is called after the work already registered. */
  lemma RelayAfterAdd(workList: seq<WorkId>, added: seq<WorkId>, args: seq<string>)
    requires TimeChangeRelay(workList + added, args).Ok?
    ensures TimeChangeRelay(workList, args).Ok?
    ensures added != [] ==> TimeChangeRelay(workList + added, args).value
                            == TimeChangeRelay(workList, args).value + Fanout(added, args[1])
  {
  }
}
