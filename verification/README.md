# docker-stats-viewer in Dafny

A model of the two halves of docker-stats-viewer, with proofs about each.

**The server (`index.js`)** runs one polling loop per container a browser
socket subscribes to. Each loop runs `docker inspect` and, while the
container is running, `docker stats --no-stream`. It parses the stats row
(`parseStatsLine`, `parseMemory`) and sends the record down the socket. It
then re-arms a timer for the next poll. The `statsProcesses` map records the
current process or timer of each container. Stale process ends are
recognised by process identity.

**The browser client (`public/app.js`)** keeps:

- a map of known containers;
- the set of visible ones, each with a card on the page;
- a 30-sample chart history per container;
- the refresh rate;
- the subscribe and unsubscribe messages it sends.

The modules follow the program:

| module | what it holds |
|---|---|
| `Options` | `Option` |
| `JsString` | JavaScript's `trim`, `split`, whitespace tokenising and one-character `replace` on strings |
| `JsNumber` | `parseFloat`, `parseInt` and the `x \|\| 0` fallbacks, over exact reals with NaN and ±Infinity |
| `Memory` | `parseMemory`, including the backtracking of `^([\d.]+)(\w+)$` |
| `StatsLine` | `parseStatsLine` |
| `Registry` | the server's state: the `statsProcesses` entries, sockets, outstanding `docker inspect` and `docker stats` processes, pending timers, killed processes and sent messages. Every socket message, start of a closing handshake, disconnect, process end, spawn error and timer firing is an `Event`, and `Step` applies one. |
| `RegistryProperties` | what holds over any sequence of events |
| `RegistryTraces` | concrete event sequences that exhibit the loop's behaviour, including two ways a subscribed socket's loop dies or doubles |
| `History` | the chart window of `updateStats` |
| `Viewer` | the client's bookkeeping: toggling, select all or none, the periodic container check, rendering, rate changes, socket open and close, and stats updates |

Processes, timers and sockets are opaque numbers drawn from one counter, so
every spawn and `setTimeout` gets an id no earlier one had.

## Model

| member | source | states |
|---|---|---|
| JsString.SkipSpace | index.js:295 | the index returned is the first non-whitespace character at or after `i`, with only whitespace skipped |
| JsString.SpaceRunStart | index.js:348 | the index returned starts the whitespace run that ends at `j`: everything between is whitespace and the character before it is not |
| JsString.Trim | index.js:128 | `trim()` returns the slice between the leading and trailing whitespace runs; it neither starts nor ends with whitespace, and only whitespace is cut on either side |
| JsString.TrimSpaceFree | index.js:348 | a string without whitespace is its own trim |
| JsString.JoinSplit | index.js:347 | joining the pieces of `split(sep)` with `sep` gives back the original string |
| JsString.SplitTriple | index.js:347-360 | `"a b c".split(" / ")` for space-free words gives `[a, c]` when `b` is `/` and the single piece `"a b c"` otherwise |
| JsString.Tokens | index.js:295 | `split(/\s+/)` with empty pieces filtered: every token is non-empty and whitespace-free |
| JsString.Word | index.js:295 | the word taken is a whitespace-free prefix that stops only at whitespace or the end |
| JsString.TokensOfJoin | index.js:295 | tokenising words joined by single spaces gives back the words |
| JsString.IndexOf | index.js:344 | the position found holds the character and no earlier position does |
| JsString.RemoveFirst | index.js:344 | `replace("%", "")` removes only the first `%`, and returns the string unchanged when there is none |
| JsString.RemoveTrailing | index.js:344 | a `%` that appears only at the end is the one removed |
| JsString.Split | index.js:347 | `split` with a non-empty separator always returns at least one piece (the pieces rejoin to the input by `JsString.JoinSplit`) |
| JsNumber.DigitRun | index.js:404 | the run of decimal digits starting at `i` ends at the first non-digit |
| JsNumber.HexRun | public/app.js:69 | the run of hexadecimal digits starting at `i` ends at the first non-hexadecimal character |
| JsNumber.NumeralStart | index.js:344 | the numeral starts inside the string, after the whitespace and optional sign |
| JsNumber.UnsignedDecimal | index.js:404 | an unsigned decimal literal is NaN exactly when no digit (or dot and digit) starts it, and is otherwise a non-negative finite number |
| JsNumber.ParseFloat | index.js:404 | `parseFloat` is NaN exactly when neither a decimal literal nor `Infinity` follows the whitespace and sign; it is ±Infinity exactly on `Infinity`, with the sign's polarity; unsigned finite results are non-negative |
| JsNumber.ParseInt | index.js:382 | an unsigned `parseInt` result is non-negative |
| JsNumber.ParseIntNaN | public/app.js:69 | `parseInt` is NaN exactly when no digit of the chosen base (hexadecimal after `0x`) follows the sign |
| JsNumber.DigitString | index.js:382 | a string of decimal digits reads as its decimal value under both `parseFloat` and `parseInt` |
| JsNumber.OrZero | index.js:344 | `x \|\| 0` is never NaN and keeps every non-NaN number |
| JsNumber.Times | index.js:406 | multiplying by a unit factor scales finite values and keeps NaN |
| Memory.MatchUnit | index.js:401 | `^([\d.]+)(\w+)$` matches exactly when some split point exists, and the split returned is the largest such point, the one the greedy group settles on |
| Memory.CoefficientRun | index.js:401 | the run of `[\d.]` characters starting at `i` ends at the first character outside the class |
| Memory.Backtrack | index.js:401 | giving back characters of the greedy group finds the largest valid split at or below `k`, or none |
| Memory.Multiplier | index.js:389-406 | a unit outside the table multiplies by 1, and every factor is at least 1 |
| Memory.ParseMemory | index.js:386-407 | a size is either NaN or a finite non-negative number: never negative and never infinite |
| Memory.ParseMemoryMeaning | index.js:386-407 | no match (the empty string included) gives 0, and a match gives the coefficient of the largest split times the unit's factor |
| Memory.ForeignCharGivesZero | index.js:401-402 | any character outside `[\d.]` and `\w` makes the size 0 |
| Memory.ParseMemoryNoBacktrack | index.js:401-406 | when the whole leading `[\d.]` run is followed by a word, that run is the coefficient and the word the unit |
| Memory.ParseMemoryAt | index.js:401-406 | a coefficient followed by a unit that starts with neither a digit nor a dot reads as coefficient times factor |
| Memory.ParseMemoryZero | index.js:387-390 | `""` and `0B` are 0 bytes |
| Memory.ParseMemoryKilo | index.js:391 | `2kB` is 2000 bytes |
| Memory.ParseMemoryGibi | index.js:396 | `1.5GiB` is 1.5 × 2^30 bytes |
| Memory.ParseMemoryBacktracks | index.js:401-406 | a unit-less `12` backtracks to coefficient `1`, unit `2` |
| Memory.ParseMemorySingleDigit | index.js:401-402 | a single digit does not match and reads as 0 |
| Memory.ParseMemoryAsWritten | index.js:386-407 | the as-written function still gives 0 whenever the pattern does not match |
| Memory.AsWrittenAgreesOffPrototype | index.js:406 | the as-written and corrected functions agree whenever no split's unit is an inherited `Object.prototype` name |
| Memory.InheritedUnitIsNaN | index.js:406 | `1constructor` is NaN as written and 1 byte as intended |
| StatsLine.Percent | index.js:344-350 | a percentage field is never NaN |
| StatsLine.ParseStatsLine | index.js:293-384 | fewer than seven tokens give the `unknown` all-zero record; otherwise the name is the first token, the two percentages are never NaN, and each of the six sizes is NaN or a finite non-negative number |
| StatsLine.Part | index.js:319-338 | a token past the end of the row interpolates as the text `undefined`; when every token is non-empty and whitespace-free, so is every part |
| StatsLine.Half | index.js:348-360 | `half?.trim() \|\| "0B"` through `parseMemory`: a missing half is 0 bytes, and every half is NaN or a finite non-negative size |
| StatsLine.RatioOf | index.js:347-360 | both sides of a `used / total` field are NaN or finite non-negative sizes |
| StatsLine.Ratio | index.js:319-360 | the ratio field starting at any token has two sizes, NaN or finite and non-negative |
| StatsLine.Last | index.js:341 | the PID token is one of the row's tokens |
| StatsLine.Pids | index.js:382 | `parseInt(pids) \|\| 0`: an unreadable count is 0, and a count without a minus sign is never negative |
| StatsLine.TrimUnpadded | index.js:348 | a string with no whitespace at either end is its own trim |
| StatsLine.UndefinedIsZero | index.js:347-349 | the text `undefined` that a missing token interpolates to is 0 bytes |
| StatsLine.RatioOfSlash | index.js:347-349 | `a / c` reads as the two sizes either side |
| StatsLine.RatioOfOther | index.js:347-349 | a triple without `/` in the middle reads as two zeros |
| StatsLine.RatioMeaning | index.js:319-360 | a ratio field is the sizes either side of its middle token when that token is exactly `/`, and two zeros otherwise, also past the end of the row |
| StatsLine.MalformedRatiosAreZero | index.js:347-360 | in a parsed row, a ratio field whose middle token is not `/` is zero in both sizes, and a trailing `/` gives zero for the missing second size |
| StatsLine.RatioFields | index.js:319-360 | the six sizes come from the three-token fields starting at tokens 2, 6 and 9 |
| StatsLine.MalformedRatioIsZero | index.js:347-360 | the same two facts for one ratio field on its own |
| StatsLine.DocumentedLayout | index.js:315-383 | in the documented 13-token layout every field comes from its own token: sizes through `parseMemory`, percentages without `%`, PIDs from the last token |
| StatsLine.DocumentedLayoutAsWritten | index.js:345-360 | in the documented layout, when no size token's unit is an inherited `Object.prototype` name, each of the six sizes is exactly what the as-written `parseMemory` gives |
| StatsLine.NonNumericFieldsAreZero | index.js:344-382 | non-numeric percentages and a non-numeric PID count read as 0 |
| StatsLine.ExampleTokensOfRow | index.js:295 | the example row tokenises to its thirteen fields |
| StatsLine.ExamplePercentTexts | index.js:344-350 | `12.5%` and `50%` lose their `%` |
| StatsLine.ExampleDecimal | index.js:344 | `12.5` reads as 12.5 |
| StatsLine.ExamplePercents | index.js:344-350 | `12.5%` and `50%` read as 12.5 and 50 |
| StatsLine.ExampleIntegers | index.js:382 | `50` reads as 50 and the PID count `5` as 5 |
| StatsLine.ExampleRow | index.js:293-384 | a full row reads as the expected record, field by field |
| Registry.StopStatsStream | index.js:272-291 | a stop acts only when there is an entry and no socket was given or it is the entry's own. When it acts, the entry is gone, its process is killed and its timer cleared, and nothing else changes |
| Registry.StartStatsStream | index.js:106-126 | a start first stops the socket's own entry, then spawns a fresh inspect for the cycle |
| Registry.Connected | index.js:68-71 | a new socket is open and subscribed to nothing |
| Registry.Received | index.js:74-89 | `subscribe` records the id and starts an inspect at `refreshRate \|\| 2000`; `unsubscribe` forgets the id, silences the socket for it and stops its own entry; anything else, and an unknown socket, change nothing |
| Registry.Closing | index.js:133-134 | once the closing handshake starts the socket is live for nothing, every other socket keeps its liveness, and nothing but the socket's open flag changes: its streams stay until the `close` event |
| Registry.Disconnected | index.js:91-99 | closing a socket stops exactly the entries of its containers that it owns; others survive unchanged, and afterwards the socket is live for nothing |
| Registry.StopAllStep | index.js:93-97 | stopping one more container extends the closed form of the close handler by that container |
| Registry.StopEachStep | index.js:93-97 | one pass of the close handler's loop keeps its bookkeeping and shrinks the work left |
| Registry.StopEach | index.js:93-97 | stopping the socket's containers one at a time, in any order, gives the closed form |
| Registry.StopAll | index.js:93-97 | after the close handler, the socket's own containers among `ids` have no entry, every other entry is untouched, killed processes only grow, no timer is added, and sockets, messages, outstanding processes and the id counter are unchanged |
| Registry.Disconnect | index.js:91-99 | the close handler as a loop computes `Disconnected` |
| Registry.InspectDone | index.js:127-170 | a finished inspect is no longer outstanding and kills nothing. For a running container it records a fresh poll as the entry. Any other status is sent to a live socket with a re-check timer recorded in the entry; for a socket that is not live, nothing else happens |
| Registry.DataLine | index.js:207-211 | a data row exists only for exit code 0 and non-blank output |
| Registry.StatsDone | index.js:200-260 | a stale poll changes nothing but its own bookkeeping. The current poll sends its parsed row to a live socket, deletes its entry, leaves inspects and kills alone, and arms an unrecorded re-poll timer, under the next id, while the socket is live |
| Registry.SpawnFailed | index.js:262-268 | a poll that cannot spawn deletes its entry if it is still the current one, and schedules nothing |
| Registry.TimerDone | index.js:245-253 | a timer restarts the stream only while its socket is open and subscribed: the timer is consumed, the socket's own entry for the container is stopped, a fresh inspect is spawned under the next id, and other entries, polls and sent messages are untouched. Otherwise only the timer goes |
| Registry.RunAppend | index.js:68-291 | running two event sequences in turn is running their concatenation |
| Registry.Step | index.js:68-291 | no event takes back a message already sent or revives a killed process |
| Registry.Run | index.js:68-291 | over any sequence of events the sent messages form a growing log and the killed set only grows |
| RegistryProperties.StepSendsOnlyToLive | index.js:133-219 | every message goes to a socket that is open and subscribed to its container, and sent messages are never retracted |
| RegistryProperties.StaysQuiet | index.js:74-99 | a socket not live for a container becomes live only by subscribing to it |
| RegistryProperties.QuietUntilResubscribed | index.js:68-291 | a socket that is not live hears nothing about the container over any sequence of events without a resubscribe |
| RegistryProperties.SilentAfterUnsubscribe | index.js:81-83 | after an unsubscribe the socket hears nothing more about that container until it subscribes again |
| RegistryProperties.InitialValid | index.js:68-291 | the empty server is consistent |
| RegistryProperties.StopValid | index.js:272-291 | a stop keeps every entry's process an outstanding poll of the same container and socket |
| RegistryProperties.StartValid | index.js:106-126 | so does a start |
| RegistryProperties.ReceivedValid | index.js:74-89 | so does a socket message |
| RegistryProperties.DisconnectedValid | index.js:91-99 | so does a disconnect |
| RegistryProperties.InspectDoneValid | index.js:127-187 | so does the end of an inspect |
| RegistryProperties.StatsDoneValid | index.js:200-260 | so does the end of a poll |
| RegistryProperties.SpawnFailedValid | index.js:262-268 | so does a spawn error |
| RegistryProperties.TimerDoneValid | index.js:245-253 | so does a timer |
| RegistryProperties.StepValid | index.js:68-291 | every event keeps the registry consistent |
| RegistryProperties.RunValid | index.js:68-291 | any run from a consistent server ends consistent |
| RegistryProperties.StopHoldsOnlyOld | index.js:272-291 | a stop never makes an entry hold a process it did not hold |
| RegistryProperties.ReceivedHoldsOnlyOld | index.js:74-89 | neither does a socket message |
| RegistryProperties.InspectDoneHoldsOnlyFresh | index.js:182-187 | the end of an inspect can only put the process it spawns into an entry |
| RegistryProperties.TimerDoneHoldsOnlyOld | index.js:245-253 | a timer never puts a process into an entry |
| RegistryProperties.StepHoldsOnlyFresh | index.js:68-291 | after any event an entry holds `p` only if it held it before or `p` is the id spawned right then |
| RegistryProperties.StepNextGrows | index.js:68-291 | ids are never reused |
| RegistryProperties.StepKeepsClosed | index.js:133-134 | a socket that has left the OPEN state never returns to it, whatever the event |
| RegistryProperties.ClosedStaysSilent | index.js:127-259 | after its closing handshake starts, a socket is sent nothing more over any run of events, even before its `close` event stops its streams |
| RegistryProperties.CloseStartedSilences | index.js:127-259 | a known socket whose handshake starts hears nothing from then on |
| RegistryProperties.StaleStaysStale | index.js:200-205 | a poll whose entry has moved on is never current again |
| RegistryProperties.PollKept | index.js:174-187 | an outstanding poll keeps its cycle until it closes |
| RegistryProperties.PollGone | index.js:200-205 | a poll that has closed never becomes outstanding again |
| RegistryProperties.ReplacedPollStaysSilent | index.js:200-205 | a poll replaced in the registry, whenever it closes, sends nothing and schedules nothing |
| RegistryProperties.OneEntryPerPoll | index.js:182-187 | at most one entry holds a given poll, its own container's |
| RegistryProperties.StopKeepsDormant | index.js:272-291 | a stop does not revive a dead loop |
| RegistryProperties.StartKeepsDormant | index.js:106-126 | a start for another socket or container does not revive it |
| RegistryProperties.ReceivedKeepsDormant | index.js:74-89 | a message other than the socket's own subscribe does not revive it |
| RegistryProperties.InspectDoneKeepsDormant | index.js:127-171 | an inspect ending neither revives a dead loop nor sends to it |
| RegistryProperties.StatsDoneKeepsDormant | index.js:200-260 | a poll ending neither revives a dead loop nor sends to it |
| RegistryProperties.TimerDoneKeepsDormant | index.js:245-253 | a timer does not revive a dead loop |
| RegistryProperties.StepKeepsDormant | index.js:68-291 | no event other than the socket's own subscribe revives a dead loop or sends to it |
| RegistryProperties.DormantStaysSilent | index.js:68-291 | a socket whose loop for a container died hears nothing more about it, whatever happens, until it subscribes again, even while it stays open and subscribed |
| RegistryTraces.TakenOverReached | index.js:74-205 | a second socket subscribing to a polled container takes over its entry, and the first poll then closes as stale |
| RegistryTraces.SecondSubscriberStarvesFirst | index.js:200-259 | after the takeover the first socket is still open and subscribed but its loop is dead and it hears nothing more about the container |
| RegistryTraces.BothWaitingReached | public/app.js:68-92 | a rate change's unsubscribe and subscribe while the loop waits on its re-poll timer leave two timers pending for the same socket and container |
| RegistryTraces.OldTimerFires | index.js:245-253 | the old timer then starts an inspect at the old rate |
| RegistryTraces.RateChangeCanDuplicateCycle | index.js:236-291 | the unsubscribe finds no entry, so the old timer is not cleared and a second loop at the old rate runs beside the new one |
| RegistryTraces.PollSpawned | index.js:127-187 | subscribing to a running container reaches a polling entry |
| RegistryTraces.FailedReached | index.js:262-268 | a spawn error of that poll deletes the entry and leaves nothing pending |
| RegistryTraces.SpawnErrorEndsCycle | index.js:262-268 | after a spawn error the loop has ended for good while the socket stays subscribed: it hears nothing more until it resubscribes |
| History.Of | public/app.js:668-686 | the five series of a list of samples are well formed exactly when there are at most 30 samples, with one entry per sample |
| History.Recent | public/app.js:680-686 | the window is the last 30 samples, or all of them |
| History.Shift | public/app.js:681-685 | `shift()` drops exactly the first element |
| History.Push | public/app.js:668-686 | an update keeps the five series aligned and within 30, grows a partial window by one, keeps a full one at 30, and ends every series with the new sample |
| History.FullWindowDropsOldest | public/app.js:674-686 | on a full window every series gains the sample and loses exactly its oldest entry |
| History.PartialWindowAppends | public/app.js:674-679 | on a partial window every series only gains the sample |
| History.PushOf | public/app.js:668-686 | an update on the series of a window is the series of the window plus the sample, less the oldest sample when it was full |
| History.RecentSnoc | public/app.js:680-686 | the last 30 of one more sample is the previous window plus it, less its oldest when full |
| History.PushRecent | public/app.js:668-686 | one update on the window of the samples so far is the window of the samples plus the new one |
| History.ReplayKeepsRecent | public/app.js:668-686 | any number of updates keep exactly the most recent 30 samples, in order, in all five series |
| History.FromEmpty | public/app.js:668-686 | a fresh chart after any updates shows their last 30 |
| History.Replay | public/app.js:668-686 | replaying samples onto a well-formed history keeps it well formed, at length min(old + new, 30), ending with the last sample replayed |
| History.ReplayCons | public/app.js:668-686 | replaying one sample then a run is pushing that sample, then replaying the run |
| Viewer.IndexOf | public/app.js:263-285 | the position of a container id in the map, or the end when absent |
| Viewer.Get | public/app.js:277 | `containers.get(id)` returns the entry with that id |
| Viewer.Put | public/app.js:282 | `containers.set` replaces an existing entry in place and appends a new one at the end |
| Viewer.Build | public/app.js:379-384 | building the map from a list keeps exactly the list's ids |
| Viewer.BuildDistinct | public/app.js:379-384 | a list without duplicate ids is the map, in order |
| Viewer.InitialValid | public/app.js:2-13 | the constructor's state is consistent |
| Viewer.Shown | public/app.js:170-198 | the ids of the map whose visibility is as asked, each once when the map has no duplicate ids |
| Viewer.Toggle | public/app.js:134-168 | toggling a container with a card flips its visibility and sends an unsubscribe or a subscribe while the socket is open; without a card nothing changes; nothing else changes |
| Viewer.ToggleTwice | public/app.js:134-168 | toggling twice restores visibility and sends one unsubscribe and one subscribe |
| Viewer.ShowAll | public/app.js:170-198 | select-all's loop makes every container visible and subscribes, in map order, to exactly those that were hidden |
| Viewer.ShowStep | public/app.js:171-181 | one turn of select-all's loop: the container was already visible exactly when it was visible at the start, and it adds a subscribe message exactly when it was hidden |
| Viewer.SelectAll | public/app.js:170-198 | the same, for the whole viewer, changing nothing else and keeping it consistent |
| Viewer.SelectNone | public/app.js:200-225 | select-none hides everything and, while open, unsubscribes once from each visible container |
| Viewer.AddOne | public/app.js:323-351 | adding one container stores, shows and cards it, gives it an empty history and subscribes while open |
| Viewer.AddNewContainers | public/app.js:315-354 | adding containers stores, shows and cards exactly the new ids |
| Viewer.AddNewContainersKeepsKnown | public/app.js:323-324 | the map only grows, and entries whose id is not among the new ones are unchanged |
| Viewer.AddNewContainersSent | public/app.js:342-350 | while open, the new containers are subscribed to in list order at the current rate; otherwise nothing is sent |
| Viewer.AddNewContainersKeys | public/app.js:340 | the added containers get a history and no other history appears or disappears |
| Viewer.AddNewContainersHistory | public/app.js:340 | added containers start with an empty history; the others keep theirs |
| Viewer.AddNewContainersValid | public/app.js:315-354 | adding containers keeps the viewer consistent |
| Viewer.AddNewContainersPrefix | public/app.js:323-324 | containers that are all new are appended after the known ones |
| Viewer.Refresh | public/app.js:275-285 | the state-update loop keeps the map's length, ids and names, and leaves containers absent from the answer untouched |
| Viewer.RefreshOne | public/app.js:276-284 | one row of the answer keeps the map's length, ids and names, and changes only the container with the row's id |
| Viewer.RefreshMeaning | public/app.js:275-285 | a known container listed once takes the answer's state and status if its state changed, and is unchanged otherwise |
| Viewer.NewContainers | public/app.js:271-273 | the new containers are exactly the answer's rows whose id is not known |
| Viewer.Merge | public/app.js:263-289 | `checkForContainerChanges` never forgets a container and shows exactly the new ones in addition |
| Viewer.MergeNonEmpty | public/app.js:291-293 | after a non-empty answer the map is not empty, so the final `renderContainers` branch never runs |
| Viewer.PrefixUntouched | public/app.js:323-324 | a map extended without touching its ids starts with the old map |
| Viewer.MergeKeepsKnown | public/app.js:275-289 | known containers keep their places at the front of the map and change only by the state update |
| Viewer.MergeSent | public/app.js:287-289 | while open, exactly the new containers are subscribed to, in answer order |
| Viewer.MergeValid | public/app.js:263-293 | `checkForContainerChanges` keeps the viewer consistent |
| Viewer.CheckForChanges | public/app.js:263-294 | a failed request changes nothing; otherwise the result is the merge, and the viewer stays consistent |
| Viewer.RenderContainers | public/app.js:368-398 | rendering makes the map, the visible set and the cards exactly the listed containers, in order when ids are distinct, and sends nothing |
| Viewer.RenderHistory | public/app.js:391-395 | rendered containers get an empty history, others keep theirs, and the viewer stays consistent |
| Viewer.ResubscriptionPairs | public/app.js:71-90 | a rate change sends, per visible container in map order, an unsubscribe followed by a subscribe |
| Viewer.Resubscriptions | public/app.js:73-89 | every message a rate change sends names one of the visible containers |
| Viewer.ChangeRefreshRate | public/app.js:68-92 | the rate becomes `parseInt` of the input; while open, every visible container is resubscribed at the new rate; nothing else changes |
| Viewer.RateChangeMessages | public/app.js:68-92 | the rate change sends exactly two messages per visible container, unsubscribe then subscribe at the new rate |
| Viewer.SocketOpened | public/app.js:613-626 | on open, the socket subscribes to the visible containers in map order |
| Viewer.OpenSubscribesVisible | public/app.js:613-626 | those subscriptions are exactly one per visible container, at the current rate, without duplicates |
| Viewer.SocketClosed | public/app.js:641-644 | when the socket leaves the OPEN state it is no longer open and nothing else changes |
| Viewer.UpdateStats | public/app.js:651-698 | a stats message for a container without a chart history changes nothing, and neither does one whose card is on the page when its CPU or memory percentage is not finite (the `toFixed` on `null` throws before the push); otherwise only that container's history changes, by one sample that ends every series with the message's values, within the window |
| Viewer.Updates | public/app.js:627-638 | a run of stats messages changes only chart histories, keeps their keys, and leaves every other container's history alone |
| Viewer.Charted | public/app.js:651-659 | the messages that reach a chart are, without a card, all of them; with one, only messages of the run whose percentages are finite, and all of them when every one is |
| Viewer.ChartedSamples | public/app.js:651-686 | the samples a run charts are the first message's, when it reaches the chart, followed by the rest's |
| Viewer.ParsedRendersUnlessInfinite | public/app.js:657-659 | a record the server parsed never has a NaN percentage, so it fails to render exactly when a percentage is ±Infinity |
| Viewer.UpdatesReplay | public/app.js:627-686 | a run of stats messages for one container replays onto its history the samples of exactly the messages that reach its chart |
| Viewer.ChartShowsLastThirty | public/app.js:627-686 | a fresh chart after any run of stats messages holds exactly the last 30 of those that reached it |
| Viewer.Wire | index.js:76-83 | a client unsubscribe reaches the server as an unsubscribe for the same container, and a subscribe as a subscribe for it |
| Viewer.SubscriptionRate | index.js:79 | a client subscription on an open socket makes the server start an inspect at the client's rate, or at 2000 when the rate is missing or 0 |

## Left out

- The HTTP server and the `/api/containers` handler: `docker ps` output parsing is not part of this model. The client's fetch is a parameter of `Viewer.CheckForChanges` (`None` for a failed request).
- `loadContainers` and `init` (public/app.js:16-25, 236-251) are not modelled. They are a fetch followed by `renderContainers`, which is.
- The DOM, chart drawing, `createContainerCard`, `createFilterControls`, `updateFilterControls`, `updateVisibleCount`, `updateContainerStatus` and `showNoContainers`: they only change the page. A container "has a card" in the model exactly when `getElementById` would find its element.
- `formatBytes` and the text fields of `updateStats`: display only.
- `Date.now()` and `toLocaleTimeString()`: timestamps are a parameter of `Viewer.UpdateStats` and are omitted from server messages.
- Floating point: numbers are exact reals with NaN and ±Infinity. Rounding, overflow of huge literals to Infinity, and `-0` are not modelled.
- JSON: `JSON.stringify` sends NaN and ±Infinity as `null`. Messages are not serialised in the model, so a non-finite size reaches the client, and the chart, as the number itself. The one place `null` changes behaviour is modelled: `toFixed` on a non-finite percentage throws, and `Viewer.UpdateStats` drops that update when the card is on the page.
- StatsLine.ParseStatsLine: sizes, and so the records `Registry.StatsDone` sends, go through the corrected `Memory.ParseMemory`. A size whose unit is an inherited `Object.prototype` name (`1constructor`) reads as its coefficient where index.js gives NaN (see Findings). `StatsLine.DocumentedLayoutAsWritten` shows the two agree on every documented row whose units are not such names.
- The server's `console` logging, stderr collection and the socket `error` handler.
- The reconnect timer of `onclose` and the 5-second container-check interval. They are events the caller applies (`SocketOpened`, `CheckForChanges`), not clocks.
- Viewer.SelectNone: JavaScript sends unsubscribes in the `Set`'s insertion order. The model states that each visible container gets exactly one, in some order.
- The exit code of a killed `docker stats` process is an arbitrary `Option<int>` of the `StatsClosed` event.
- A spawn failure of `docker inspect` (index.js:115-121). That process has no `error` listener, so Node raises the error as an uncaught exception and the server exits. The model has no event for it: a server that has exited has no state left to model.
- After a spawn error of a `docker stats` poll, the failed process stays among the outstanding polls until a `StatsClosed` event for it arrives, if one ever does. Such a close is stale and changes nothing else.
- A generation counter in the registry entries: the code recognises stale process ends by process identity (`currentProcessInfo.process !== dockerStats`), so the model does the same.

## Findings

| source | as written | input that shows it | evidently intended | confidence | as-written member | corrected member |
|---|---|---|---|---|---|---|
| index.js:406 | `value * (units[unit] \|\| 1)` on an object literal also finds the names `Object.prototype` provides, such as `constructor` and `toString`, which are truthy, so the product is NaN | `parseMemory("1constructor")` | a unit outside the table multiplies by 1, giving 1 byte | not executed | Memory.ParseMemoryAsWritten, Memory.InheritedUnitIsNaN | Memory.ParseMemory, Memory.ParseMemoryMeaning, StatsLine.ParseStatsLine |
