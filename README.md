# Verdi/nWave interface — a Dafny model

This project models the `Interface` class of `resources/verdi_interface.py`.
The class drives the Verdi/nWave waveform viewer through its embedded Tk
command interpreter. The model keeps what the class itself decides:

- which interpreter names it offers as candidates;
- how it escapes signal paths;
- how it reads the viewer's replies;
- which commands it sends, and in which order;
- what it caches;
- how it hands a cursor-time-change notification to the registered work
  functions.

The viewer is not modelled. It appears as a reply function
`HostReply = (nat, Command) -> string`, which gives its reply to the n-th
command it receives. Each `send` appends the command to the ghost trace
`sent`. Work functions are opaque identifiers (`WorkId`). Each call of one
is appended to the ghost trace `invoked`.

Modules:

- `Types`: `Option`, `Result`, `Failure`, `Command` and the failure reply `"0"`.
- `Escape`: `escape_signal`. The spec function `Escaped` and the loop `EscapeSignal` are proved equal. Also here: length, the unescaping round trip, injectivity, the unchanged case, and a backslash before every bracket.
- `Text`: Python's `str.split(' ')`, `' '.join` and substring `in`. `Split` and `Join` are inverse in both directions, and `Contains` is characterised by an occurrence index.
- `Replies`: the reply decoders of `wvGetActiveFileName`, `wvGetCursor`, `wvSetCursor`, `wvCenterCursor`, `wvSetSearchMode` and `wvSearch{Next,Prev}BySignal`. The cursor and search decoders each have an if-and-only-if lemma describing the replies they accept.
- `Discovery`: the candidate scan of the constructor. A nested loop (`FindCandidates`) is proved against `CandidatesOf`. The multiplicity, membership and order lemmas are about `CandidatesOf`.
- `Notification`: the relay behind `time_change_callback`, as the pure function `TimeChangeRelay`.
- `Session`: the exact command sequence of `search_signal_change` as the pure function `SearchSignalChangeRun`, built from one function per stage (`SearchAtCursorRun`, `SearchFromRun`, `MoveCursorRun`), with its shape lemma.
- `VerdiInterface`: the class `Interface`. It has the fields of `Interface.__init__` except `tk`, plus `host` (the viewer's replies), `sendCount` (how many commands have gone out, which selects the next reply) and `localCommands` (the commands registered with `tk.createcommand`); these three stand in for the Tk connection and the viewer. Each method states the new trace and the new fields in terms of the functions above.

Python `assert` failures are modelled as `Err(AssertionFailed(message))`, with the messages of `verdi_interface.py`. An out-of-range token index (`IndexError`) is modelled as `Err(IndexOutOfRange)`.

Points where the code does something easy to overlook, and the model follows it:

- The direction of `search_signal_change` is checked only inside `wvSearchBySignal`. So with an illegal direction, `wvSetSearchMode` and `wvGetCursor` have already been sent.
- `unregister_time_change_callback` never clears `time_change_name`. Calling it twice sends `RemoveEventCallback` twice.
- `register_time_change_callback` is not guarded. A second call sends `AddEventCallback` again.
- `time_change_callback` reads `args[1]` inside the loop. A callback without a time argument therefore fails only when there is work to call, and then before any call.
- A name that contains both `verdi` and `nWave` becomes a candidate twice.
- `escape_signal` does not escape backslashes already in the signal. The round trip still holds, because the function that removes escapes deletes only a backslash that stands right before a bracket.

## Model

| member | source | states |
|---|---|---|
| Escape.EscapeSignal | resources/verdi_interface.py:183-189 | the loop builds exactly `Escaped(signal)`, whose properties are the lemmas below |
| Escape.EscapedLength | resources/verdi_interface.py:183-189 | each bracket adds exactly one character to the escaped signal |
| Escape.UnescapeEscaped | resources/verdi_interface.py:183-189 | deleting each backslash right before a bracket recovers the input, backslashes already in the input included |
| Escape.EscapedInjective | resources/verdi_interface.py:183-189 | two signals with the same escaped form are equal |
| Escape.EscapedUnchanged | resources/verdi_interface.py:183-189 | the signal comes back unchanged if and only if it holds no bracket |
| Escape.BracketsPreceded | resources/verdi_interface.py:185-188 | every bracket of the output stands right after a backslash; the output never starts with a bracket |
| Text.Split | resources/verdi_interface.py:92-93 | `split(' ')` yields one more piece than there are spaces, and no piece holds a space |
| Text.SplitJoin | resources/verdi_interface.py:92-93 | joining the split pieces with single spaces gives back the reply |
| Text.JoinSplit | resources/verdi_interface.py:92-93 | splitting space-joined, space-free words gives back the words |
| Text.ContainsIff | resources/verdi_interface.py:58 | `base_name in interp` holds exactly when the base name occurs at some index of the interpreter name |
| Text.ContainsOccurs | resources/verdi_interface.py:58 | when `base_name in interp` holds, the base name occurs at some index of the interpreter name |
| Text.OccursContains | resources/verdi_interface.py:58 | an occurrence of the base name at any index makes `base_name in interp` hold |
| Replies.DecodeActiveFileName | resources/verdi_interface.py:69-75 | an empty reply fails with "No fsdb filename returned."; any other reply is the file name |
| Replies.Acknowledge | resources/verdi_interface.py:95-110 | the reply "0" fails with the command's message; any other reply succeeds |
| Replies.DecodeCursor | resources/verdi_interface.py:82-93 | "0" fails with "wvGetCursor failure."; another reply with fewer than three spaces fails with an index error; any other reply succeeds |
| Replies.CursorReplyIff | resources/verdi_interface.py:82-93 | the decoder returns cursor `c` if and only if the reply is space-joined words with `c.time` as word 1 and `c.timescale` as word 3 |
| Replies.SearchCommand | resources/verdi_interface.py:113-115 | only "Next" and "Prev" are accepted, anything else fails with "Illegal direction."; the command is "wvSearch" + direction + "BySignal" |
| Replies.SearchCommandInjective | resources/verdi_interface.py:113-115 | the command name determines the direction |
| Replies.SearchArgs | resources/verdi_interface.py:116-122 | the arguments are the signal, "-delim /" and "-time " followed by the time |
| Replies.DecodeSearchReply | resources/verdi_interface.py:124-131 | "0" and only "0" means no match; any other reply without a space fails with an index error |
| Replies.SearchReplyIff | resources/verdi_interface.py:124-131 | the decoder finds `time` if and only if the reply is space-joined words with `time` as word 1 |
| Discovery.FindCandidates | resources/verdi_interface.py:54-59 | the nested scan loop builds exactly `CandidatesOf(interps)` |
| Discovery.MatchCountBaseNames | resources/verdi_interface.py:54-58 | a name is appended once for `verdi` and once for `nWave`, for each of them it contains |
| Discovery.MatchCountOrder | resources/verdi_interface.py:54-57 | the order in which the set of base names is iterated does not change the count |
| Discovery.CandidatesAppend | resources/verdi_interface.py:56-59 | the candidates of a scan are those of its first part followed by those of the rest, so scan order is kept |
| Discovery.CandidateCount | resources/verdi_interface.py:54-59 | each name occurs among the candidates as often as it was scanned, times the number of base names it contains |
| Discovery.CandidateMembership | resources/verdi_interface.py:54-59 | a name is a candidate if and only if it was scanned and contains `verdi` or `nWave` |
| Notification.Fanout | resources/verdi_interface.py:215-216 | every work item is called exactly once, in list order, with the same time |
| Notification.TimeChangeRelay | resources/verdi_interface.py:202-216 | a missing or unknown reason fails with no call; a missing time fails with no call when there is work; otherwise work item `i` is call `i`, with `args[1]` |
| Notification.RelayAfterAdd | resources/verdi_interface.py:236-239 | work appended later is called after all work already registered |
| Session.SearchSignalChangeShape | resources/verdi_interface.py:191-200 | search mode, then cursor, then a search with the escaped signal from the cursor time (legal direction only), then set-cursor to the found time, then center; each step runs only if the one before succeeded, and each stopping point has its outcome |
| Session.CursorMovesOnlyOnMatch | resources/verdi_interface.py:198-200 | a cursor command is sent if and only if the search returned a time |
| VerdiInterface.Interface.constructor | resources/verdi_interface.py:29-59 | candidates are `CandidatesOf` the scanned names; every other field starts empty, and nothing is sent |
| VerdiInterface.Interface.Send | resources/verdi_interface.py:70-71 | one send appends one command, addressed to the wave interpreter, and returns the viewer's reply to it |
| VerdiInterface.Interface.WvGetActiveFileName | resources/verdi_interface.py:69-75 | sends `wvGetActiveFileName` and decodes the reply |
| VerdiInterface.Interface.WvGetSigValueByTime | resources/verdi_interface.py:77-80 | sends `wvGetSigValueByTime signal` and returns the raw reply |
| VerdiInterface.Interface.WvGetCursor | resources/verdi_interface.py:82-93 | sends `wvGetCursor` and decodes the reply with `DecodeCursor` |
| VerdiInterface.Interface.WvSetCursor | resources/verdi_interface.py:95-99 | sends `wvSetCursor time`; fails on "0" |
| VerdiInterface.Interface.WvCenterCursor | resources/verdi_interface.py:101-104 | sends `wvCenterCursor`; fails on "0" |
| VerdiInterface.Interface.WvSetSearchMode | resources/verdi_interface.py:106-110 | sends `wvSetSearchMode` with the options; fails on "0" |
| VerdiInterface.Interface.WvSearchBySignal | resources/verdi_interface.py:112-131 | an illegal direction fails and sends nothing; otherwise one search command is sent and its reply decoded |
| VerdiInterface.Interface.AddEventCallback | resources/verdi_interface.py:133-139 | sends `AddEventCallback` with this process's name, the callback, the reason and the asynchronous flag |
| VerdiInterface.Interface.RemoveEventCallback | resources/verdi_interface.py:141-146 | sends `RemoveEventCallback` with this process's name, the callback and the reason |
| VerdiInterface.Interface.SetWaveTkName | resources/verdi_interface.py:156-157 | later commands are addressed to the given interpreter |
| VerdiInterface.Interface.GetWaveFilename | resources/verdi_interface.py:162-169 | with a cached name: returns it and sends nothing; without one: one fetch, cached only on success |
| VerdiInterface.FetchWaveFilenameTwice | resources/verdi_interface.py:162-169 | after a successful call, the next call returns the same name and sends nothing |
| VerdiInterface.Interface.GetSigValueByTime | resources/verdi_interface.py:171-173 | the value is asked for the escaped signal |
| VerdiInterface.Interface.GetTimeAtCursor | resources/verdi_interface.py:175-177 | returns the time field of the cursor reply, or the decoder's failure |
| VerdiInterface.Interface.SearchSignalChange | resources/verdi_interface.py:191-200 | sends exactly the commands of `SearchSignalChangeRun` and ends with its result |
| VerdiInterface.Interface.SearchAtCursor | resources/verdi_interface.py:194-200 | reads the cursor time, then searches from it: sends exactly the commands of `SearchAtCursorRun` and ends with its result |
| VerdiInterface.Interface.SearchFrom | resources/verdi_interface.py:195-200 | searches from the given time and moves the cursor on a match: sends exactly the commands of `SearchFromRun` and ends with its result |
| VerdiInterface.Interface.MoveCursorTo | resources/verdi_interface.py:198-200 | without a found time sends nothing; with one sets the cursor to it and centers the view only if that succeeded, as `MoveCursorRun` says |
| VerdiInterface.Interface.TimeChangeCallback | resources/verdi_interface.py:202-216 | succeeds exactly when `TimeChangeRelay` does; on success the calls made are the relay's calls, on failure none |
| VerdiInterface.Interface.RegisterTimeChangeCallback | resources/verdi_interface.py:218-227 | creates the local command, sets the registration and sends one `AddEventCallback`, unguarded |
| VerdiInterface.Interface.UnregisterTimeChangeCallback | resources/verdi_interface.py:229-234 | sends `RemoveEventCallback` only while registered, and leaves the registration set |
| VerdiInterface.Interface.AddTimeChangeWork | resources/verdi_interface.py:236-239 | appends the work items in order and changes nothing else |
| VerdiInterface.Interface.Cleanup | resources/verdi_interface.py:241-243 | unregisters; sends nothing when never registered |

## Left out

- Tk window creation, hiding and destruction (`tk.Tk`, `overrideredirect`, `withdraw`, `destroy`). These are GUI library calls; `Cleanup` models only the unregistration.
- Cleanup: does not model the end of the Tk application. After `cleanup` has destroyed the Tk main window, every later `send` of `verdi_interface.py` fails, so a second `cleanup` or any wrapper call raises Tk's error; the model's object stays usable and `Cleanup` can run again.
- The Tk transport: `send`, `winfo_interps` and `winfo_name`. The viewer is the reply function `host`, the scanned names are the constructor's `interps`, and the local name is its `tkName`. The reply depends only on the command and on how many commands came before it.
- A send to an interpreter that does not exist, including before `set_wave_tk_name`. The model passes the `None` target to `host` instead of raising Tk's error.
- The viewer's side of `AddEventCallback` and `RemoveEventCallback`. Their replies are not read, so they appear only as trace entries. `tk.createcommand` appears only as the set `localCommands`.
- Python's `asynchronous=1` integer argument. It is passed as the string "1", which is what Tk sends.
- The tuple argument of `wvSetSearchMode`. It is recorded as separate words, because `send` concatenates its arguments into one script.
- The work functions' own behaviour, and a work function that raises. In the model every call returns, so no later call is skipped.
- Reentrancy through the Tk event loop.
- Running Python with `-O`, which removes every `assert`. The model keeps each assert as a failure.
- The getters `get_candidates_for_wave_tk_name` and `get_wave_tk_name`. They are the fields `candidates` and `waveTkName` of the class.
