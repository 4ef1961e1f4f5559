/** The `Interface` object: its state, the Verdi command wrappers built on
    one `send` primitive, the lazily fetched wave file name and the
    cursor-time-change callback registration. */
module VerdiInterface {
  import opened Types
  import opened Replies
  import opened Notification
  import Escape
  import Discovery
  import Session

  /** Name of the local Tk command through which the viewer calls back. */
  const TimeChangeCommand: string := "time_change_callback"

  class Interface {
    /** This process's own Tk interpreter name, which the viewer calls back to. */
    const tkName: string
    /** The viewer: its reply to each command it receives. */
    const host: HostReply

    var candidates: seq<string>
    var waveTkName: Option<string>
    var waveFilename: Option<string>
    var timeChangeWorkList: seq<WorkId>
    var timeChangeName: Option<string>
    /** The local Tk commands created so far (names given to `createcommand`). */
    var localCommands: set<string>
    /** How many commands have been sent; the viewer's replies may depend on it. */
    var sendCount: nat

    /** Every command sent to the viewer, oldest first. */
    ghost var sent: seq<Command>
    /** Every call of a work function made by the relay, oldest first. */
    ghost var invoked: seq<Invocation>

    ghost predicate Valid()
      reads this
    {
      && sendCount == |sent|
      && (waveFilename.Some? ==> waveFilename.value != [])
      && (timeChangeName.Some? ==> timeChangeName.value == TimeChangeCommand)
      && (timeChangeName.Some? <==> TimeChangeCommand in localCommands)
    }

    /** Scans the interpreter names `interps` visible to this process for
        candidates; everything else starts empty. */
    constructor (tkName: string, interps: seq<string>, host: HostReply)
      ensures Valid()
      ensures this.tkName == tkName && this.host == host
      ensures candidates == Discovery.CandidatesOf(interps)
      ensures waveTkName == None && waveFilename == None && timeChangeName == None
      ensures timeChangeWorkList == [] && localCommands == {}
      ensures sent == [] && invoked == []
    {
      var found := Discovery.FindCandidates(interps);
      this.tkName := tkName;
      this.host := host;
      timeChangeName := None;
      waveTkName := None;
      timeChangeWorkList := [];
      waveFilename := None;
      candidates := found;
      localCommands := {};
      sendCount := 0;
      sent := [];
      invoked := [];
    }

    /** Tk `send` to the wave interpreter: the command joins the trace and
        the viewer's reply comes back. */
    method Send(name: string, args: seq<string>) returns (reply: string)
      requires Valid()
      modifies this`sendCount, this`sent
      ensures Valid()
      ensures sent == old(sent) + [Command(waveTkName, name, args)]
      ensures reply == host(|old(sent)|, sent[|old(sent)|])
    {
      reply := host(sendCount, Command(waveTkName, name, args));
      sent := sent + [Command(waveTkName, name, args)];
      sendCount := sendCount + 1;
    }

    method WvGetActiveFileName() returns (r: Result<string>)
      requires Valid()
      modifies this`sendCount, this`sent
      ensures Valid()
      ensures sent == old(sent) + [Command(waveTkName, "wvGetActiveFileName", [])]
      ensures r == DecodeActiveFileName(host(|old(sent)|, sent[|old(sent)|]))
    {
      var reply := Send("wvGetActiveFileName", []);
      r := DecodeActiveFileName(reply);
    }

    method WvGetSigValueByTime(signal: string) returns (reply: string)
      requires Valid()
      modifies this`sendCount, this`sent
      ensures Valid()
      ensures sent == old(sent) + [Command(waveTkName, "wvGetSigValueByTime", [signal])]
      ensures reply == host(|old(sent)|, sent[|old(sent)|])
    {
      reply := Send("wvGetSigValueByTime", [signal]);
    }

    method WvGetCursor() returns (r: Result<Cursor>)
      requires Valid()
      modifies this`sendCount, this`sent
      ensures Valid()
      ensures sent == old(sent) + [Command(waveTkName, "wvGetCursor", [])]
      ensures r == DecodeCursor(host(|old(sent)|, sent[|old(sent)|]))
    {
      var reply := Send("wvGetCursor", []);
      r := DecodeCursor(reply);
    }

    method WvSetCursor(time: string) returns (r: Result<()>)
      requires Valid()
      modifies this`sendCount, this`sent
      ensures Valid()
      ensures sent == old(sent) + [Command(waveTkName, "wvSetCursor", [time])]
      ensures r == Acknowledge(host(|old(sent)|, sent[|old(sent)|]), "wvSetCursor failure.")
    {
      var reply := Send("wvSetCursor", [time]);
      r := Acknowledge(reply, "wvSetCursor failure.");
    }

    method WvCenterCursor() returns (r: Result<()>)
      requires Valid()
      modifies this`sendCount, this`sent
      ensures Valid()
      ensures sent == old(sent) + [Command(waveTkName, "wvCenterCursor", [])]
      ensures r == Acknowledge(host(|old(sent)|, sent[|old(sent)|]), "wvCenterCursor failure.")
    {
      var reply := Send("wvCenterCursor", []);
      r := Acknowledge(reply, "wvCenterCursor failure.");
    }

    /** The options travel as one Tcl list; `send` concatenates its words,
        so they reach the viewer as separate words. */
    method WvSetSearchMode(options: seq<string>) returns (r: Result<()>)
      requires Valid()
      modifies this`sendCount, this`sent
      ensures Valid()
      ensures sent == old(sent) + [Command(waveTkName, "wvSetSearchMode", options)]
      ensures r == Acknowledge(host(|old(sent)|, sent[|old(sent)|]), "Could not set search mode.")
    {
      var reply := Send("wvSetSearchMode", options);
      r := Acknowledge(reply, "Could not set search mode.");
    }

    /** An illegal direction fails before anything is sent. */
    method WvSearchBySignal(direction: string, signal: string, time: string) returns (r: Result<Option<string>>)
      requires Valid()
      modifies this`sendCount, this`sent
      ensures Valid()
      ensures SearchCommand(direction).Err? ==>
                r == Err(AssertionFailed("Illegal direction.")) && sent == old(sent)
      ensures SearchCommand(direction).Ok? ==>
                && sent == old(sent) + [Command(waveTkName, SearchCommand(direction).value, SearchArgs(signal, time))]
                && r == DecodeSearchReply(host(|old(sent)|, sent[|old(sent)|]))
    {
      var name := SearchCommand(direction);
      if name.Err? {
        r := Err(name.failure);
        return;
      }
      var reply := Send(name.value, SearchArgs(signal, time));
      r := DecodeSearchReply(reply);
    }

    /** Asks the viewer to call the local command `callback` on this
        process's interpreter when event `reason` fires; the reply is not
        read. */
    method AddEventCallback(callback: string, reason: string, asynchronous: string)
      requires Valid()
      modifies this`sendCount, this`sent
      ensures Valid()
      ensures sent == old(sent) + [Command(waveTkName, "AddEventCallback", [tkName, callback, reason, asynchronous])]
    {
      var _ := Send("AddEventCallback", [tkName, callback, reason, asynchronous]);
    }

    method RemoveEventCallback(callback: string, reason: string)
      requires Valid()
      modifies this`sendCount, this`sent
      ensures Valid()
      ensures sent == old(sent) + [Command(waveTkName, "RemoveEventCallback", [tkName, callback, reason])]
    {
      var _ := Send("RemoveEventCallback", [tkName, callback, reason]);
    }

    method SetWaveTkName(name: string)
      requires Valid()
      modifies this`waveTkName
      ensures Valid()
      ensures waveTkName == Some(name)
    {
      waveTkName := Some(name);
    }

    /** The file name is fetched only while none is cached; a failed fetch
        caches nothing, a successful one caches a non-empty name. */
    method GetWaveFilename() returns (r: Result<string>)
      requires Valid()
      modifies this`waveFilename, this`sendCount, this`sent
      ensures Valid()
      ensures old(waveFilename).Some? ==>
                r == Ok(old(waveFilename).value) && sent == old(sent) && waveFilename == old(waveFilename)
      ensures old(waveFilename).None? ==>
                && sent == old(sent) + [Command(waveTkName, "wvGetActiveFileName", [])]
                && r == DecodeActiveFileName(host(|old(sent)|, sent[|old(sent)|]))
                && waveFilename == (if r.Ok? then Some(r.value) else None)
    {
      if waveFilename.None? {
        var fetched := WvGetActiveFileName();
        if fetched.Err? {
          r := fetched;
          return;
        }
        waveFilename := Some(fetched.value);
      }
      r := Ok(waveFilename.value);
    }

    method GetSigValueByTime(signal: string) returns (reply: string)
      requires Valid()
      modifies this`sendCount, this`sent
      ensures Valid()
      ensures sent == old(sent) + [Command(waveTkName, "wvGetSigValueByTime", [Escape.Escaped(signal)])]
      ensures reply == host(|old(sent)|, sent[|old(sent)|])
    {
      var escSig := Escape.EscapeSignal(signal);
      reply := WvGetSigValueByTime(escSig);
    }

    method GetTimeAtCursor() returns (r: Result<string>)
      requires Valid()
      modifies this`sendCount, this`sent
      ensures Valid()
      ensures sent == old(sent) + [Command(waveTkName, "wvGetCursor", [])]
      ensures r.Ok? <==> DecodeCursor(host(|old(sent)|, sent[|old(sent)|])).Ok?
      ensures r.Ok? ==> r.value == DecodeCursor(host(|old(sent)|, sent[|old(sent)|])).value.time
      ensures r.Err? ==> r.failure == DecodeCursor(host(|old(sent)|, sent[|old(sent)|])).failure
    {
      var cursor := WvGetCursor();
      if cursor.Err? {
        r := Err(cursor.failure);
        return;
      }
      r := Ok(cursor.value.time);
    }

    /** Sends exactly the commands of `Session.SearchSignalChangeRun` and
        ends as it does. */
    method SearchSignalChange(signal: string, direction: string) returns (r: Result<()>)
      requires Valid()
      modifies this`sendCount, this`sent
      ensures Valid()
      ensures var run := Session.SearchSignalChangeRun(host, waveTkName, |old(sent)|, signal, direction);
              sent == old(sent) + run.sent && r == run.result
    {
      var mode := WvSetSearchMode(["-anyChange"]);
      if mode.Err? {
        r := mode;
        return;
      }
      var escSig := Escape.EscapeSignal(signal);
      ghost var modeSent := sent;
      r := SearchAtCursor(escSig, direction);
      assert sent == old(sent) + [Command(waveTkName, "wvSetSearchMode", ["-anyChange"])]
                    + Session.SearchAtCursorRun(host, waveTkName, |modeSent|, escSig, direction).sent;
    }

    /** Reads the cursor time and searches from it. */
    method SearchAtCursor(escSig: string, direction: string) returns (r: Result<()>)
      requires Valid()
      modifies this`sendCount, this`sent
      ensures Valid()
      ensures var run := Session.SearchAtCursorRun(host, waveTkName, |old(sent)|, escSig, direction);
              sent == old(sent) + run.sent && r == run.result
    {
      var time := GetTimeAtCursor();
      if time.Err? {
        r := Err(time.failure);
        return;
      }
      r := SearchFrom(escSig, direction, time.value);
    }

    /** The search step of `search_signal_change`: searches from `time` and
        moves the cursor when the search found a new time. */
    method SearchFrom(escSig: string, direction: string, time: string) returns (r: Result<()>)
      requires Valid()
      modifies this`sendCount, this`sent
      ensures Valid()
      ensures var search := Session.SearchFromRun(host, waveTkName, |old(sent)|, escSig, direction, time);
              sent == old(sent) + search.sent && r == search.result
    {
      var newTime := WvSearchBySignal(direction, escSig, time);
      if newTime.Err? {
        r := Err(newTime.failure);
        return;
      }
      r := MoveCursorTo(newTime.value);
    }

    /** The last step of `search_signal_change`: moves the cursor to the
        time the search found, then centers the view. */
    method MoveCursorTo(newTime: Option<string>) returns (r: Result<()>)
      requires Valid()
      modifies this`sendCount, this`sent
      ensures Valid()
      ensures var move := Session.MoveCursorRun(host, waveTkName, |old(sent)|, newTime);
              sent == old(sent) + move.sent && r == move.result
    {
      if newTime.None? {
        r := Ok(());
        return;
      }
      var moved := WvSetCursor(newTime.value);
      if moved.Err? {
        r := moved;
        return;
      }
      r := WvCenterCursor();
    }

    /** Called by the viewer when its cursor moves; hands the time to every
        work item as `Notification.TimeChangeRelay` says. */
    method TimeChangeCallback(args: seq<string>) returns (r: Result<()>)
      requires Valid()
      modifies this`invoked
      ensures Valid()
      ensures var relay := TimeChangeRelay(timeChangeWorkList, args);
              && (r.Ok? <==> relay.Ok?)
              && (relay.Err? ==> r == Err(relay.failure) && invoked == old(invoked))
              && (relay.Ok? ==> invoked == old(invoked) + relay.value)
    {
      if |args| == 0 {
        r := Err(IndexOutOfRange);
        return;
      }
      if args[0] != CursorTimeChange {
        r := Err(AssertionFailed("Unknown callback reason."));
        return;
      }
      var i := 0;
      while i < |timeChangeWorkList|
        invariant 0 <= i <= |timeChangeWorkList|
        invariant |args| < 2 ==> i == 0 && invoked == old(invoked)
        invariant |args| >= 2 ==> invoked == old(invoked) + Fanout(timeChangeWorkList[..i], args[1])
      {
        if |args| < 2 {
          r := Err(IndexOutOfRange);
          return;
        }
        assert timeChangeWorkList[..i + 1][..i] == timeChangeWorkList[..i];
        invoked := invoked + [Invocation(timeChangeWorkList[i], args[1])];
        i := i + 1;
      }
      assert timeChangeWorkList[..i] == timeChangeWorkList;
      r := Ok(());
    }

    /** Records the local callback command and asks the viewer to call it on
        every cursor time change. Nothing guards a second registration: it
        asks the viewer again. */
    method RegisterTimeChangeCallback()
      requires Valid()
      modifies this`timeChangeName, this`localCommands, this`sendCount, this`sent
      ensures Valid()
      ensures timeChangeName == Some(TimeChangeCommand)
      ensures localCommands == old(localCommands) + {TimeChangeCommand}
      ensures sent == old(sent) + [Command(waveTkName, "AddEventCallback", [tkName, TimeChangeCommand, CursorTimeChange, "1"])]
    {
      timeChangeName := Some(TimeChangeCommand);
      localCommands := localCommands + {TimeChangeCommand};
      AddEventCallback(TimeChangeCommand, CursorTimeChange, "1");
    }

    /** Asks the viewer to stop calling back, only if a callback was
        registered. The registration is not cleared. */
    method UnregisterTimeChangeCallback()
      requires Valid()
      modifies this`sendCount, this`sent
      ensures Valid()
      ensures timeChangeName.None? ==> sent == old(sent)
      ensures timeChangeName.Some? ==>
                sent == old(sent) + [Command(waveTkName, "RemoveEventCallback", [tkName, TimeChangeCommand, CursorTimeChange])]
    {
      if timeChangeName.Some? {
        RemoveEventCallback(timeChangeName.value, CursorTimeChange);
      }
    }

    /** Appends the work items in the order given. */
    method AddTimeChangeWork(works: seq<WorkId>)
      requires Valid()
      modifies this`timeChangeWorkList
      ensures Valid()
      ensures timeChangeWorkList == old(timeChangeWorkList) + works
    {
      var i := 0;
      while i < |works|
        invariant 0 <= i <= |works|
        invariant Valid()
        invariant timeChangeWorkList == old(timeChangeWorkList) + works[..i]
      {
        assert works[..i + 1] == works[..i] + [works[i]];
        timeChangeWorkList := timeChangeWorkList + [works[i]];
        i := i + 1;
      }
      assert works[..i] == works;
    }

    /** Safe without a registration: then nothing is sent. */
    method Cleanup()
      requires Valid()
      modifies this`sendCount, this`sent
      ensures Valid()
      ensures timeChangeName.None? ==> sent == old(sent)
      ensures timeChangeName.Some? ==>
                sent == old(sent) + [Command(waveTkName, "RemoveEventCallback", [tkName, TimeChangeCommand, CursorTimeChange])]
    {
      UnregisterTimeChangeCallback();
    }
  }

  /** Two calls of `get_wave_filename`: once the first has succeeded, the
      second returns the same name and sends nothing. */
  method FetchWaveFilenameTwice(iface: Interface) returns (first: Result<string>, second: Result<string>)
    requires iface.Valid()
    modifies iface`waveFilename, iface`sendCount, iface`sent
    ensures iface.Valid()
    ensures first.Ok? ==> second == first && iface.waveFilename == Some(first.value)
    ensures first.Ok? ==> |iface.sent| == |old(iface.sent)| + (if old(iface.waveFilename).None? then 1 else 0)
    ensures old(iface.waveFilename).Some? ==> iface.sent == old(iface.sent)
  {
    first := iface.GetWaveFilename();
    second := iface.GetWaveFilename();
  }
}
