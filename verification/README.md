# A verified model of KWindowSystem's X11 protocols

This project models, in Dafny, the parts of KWindowSystem that carry a protocol, a codec or
delicate arithmetic, and proves properties of them over every input, every run and every
interleaving.

- **Startup notification** (`src/kstartupinfo.cpp` on `src/platforms/xcb/kxmessages.cpp`).
  `Fields` and `StartupText` print and read the messages, `WireFormat` says what every text is and
  means, `Survival` exactly which records survive both, `StartupData` merges records,
  `XMessages` cuts messages into 20-byte fragments and puts interleaved fragments together
  again, `StartupRegistry` is the `KStartupInfo` object with its three maps and its signals,
  `RegistryRuns` proves what holds over all its runs, `StartupEntries` how ids get into it,
  `StartupWindows` which startup a window belongs to, `StartupSteps` what every operation does to
  an id and tells of it, and `EndToEnd` joins the layers: a record sent by one program reaches the
  registry of another exactly once. `StartupIds` makes and reads startup ids. `Text` and `IdOrder`
  hold Qt's string functions and the key order of `QMap`.
- **Manager selections** (ICCCM sections 2.1, 2.3 and 2.8). `SelectionOwner` is the
  `KSelectionOwner` object, `SelectionSystem` any number of such objects on separate
  connections, foreign clients and the X server's rules as one transition system,
  `SelectionInvariant` its invariant, `SelectionRuns` what holds in all its runs,
  `SelectionOutcomes` what each step tells the application and the server,
  `SelectionKills` what waiting for a kill request is worth, and `SelectionExamples` two runs;
  `SelectionWatcher` is `KSelectionWatcher` against a server on which others do as they like, and
  `WatcherTracking` says when it tracks the right owner.
- **`src/kx11extras.cpp`**. `Viewport` maps desktops onto a large viewport; `StrutCache` is the
  strut cache behind `workArea`, `StrutCacheRuns` its runs against a changing server.
- **Wrap-around time and nested X error handlers**. `Timestamps` (`src/platforms/xcb/kxutils.cpp`,
  `src/kusertimestamp.cpp`), `ErrorHandlers` and `ErrorHandlerRuns` (`src/kxerrorhandler.cpp`).

Code that changes objects step by step is a class with the source's fields, and every method is
proved equal to a function on the abstract state (`Abs()`); the theorems are about those
functions. Loops of the source are loops here, proved against recursive functions. `hide`
statements only keep definitions out of proofs that do not need them.

## Results that show a limit of the code

Each of these is proved, with the exact condition and, where something fails, a failing input.

- ICON, WMCLASS and APPLICATION_ID are quoted but not escaped, HOSTNAME neither. A message is read
  back as the record that was sent exactly if none of them holds a quote or a backslash and
  HOSTNAME no white space (`Survival.ChangeExact`, `Survival.NewExact`, `Survival.RemoveExact`);
  otherwise one value can even forge another (`Survival.ForgedIcon`). `docs/README.kstartupinfo`
  (lines 216-217) demands the escaping.
- Merging updates is associative except on `xinerama` (`StartupData.UpdateAssociative`,
  `StartupData.XineramaNotAssociative`).
- `docs/README.kstartupinfo` (lines 189-195) says that `change:` never creates an entry. The code
  creates one exactly when the id is real and unknown (`StartupEntries.EntersExactly`), without
  announcing it; it is dropped before 20 timeouts have passed (`RegistryRuns.UninitedIsDropped`).
  A silent `new:` that completes such an entry announces it although silence is not announced,
  and nothing else does (`StartupEntries.SilentAnnouncedExactly`, `EndToEnd.SilentYetAnnounced`,
  `EndToEnd.SilentExample`).
- `claimedOwnership` can be emitted by a client that does not own the selection
  (`SelectionRuns.ClaimedButNotOwning`, `SelectionExamples.ClaimedWhileLost`,
  `SelectionExamples.ClaimedAfterLoss`), and the watcher can forget a living owner without
  `lostOwner` (`SelectionWatcher.TrackedUntil`, `SelectionWatcher.SilentLoss`).
- The watcher tracks the server's owner only if a MANAGER message told it to look
  (`WatcherTracking.TrackedExactly`, `WatcherTracking.AnnouncedOwnerIsTracked`,
  `WatcherTracking.OwnerNotNoticed`), and goes on tracking an owner that gave the selection up
  but kept its window (`WatcherTracking.ReleaseNotNoticed`).
- `numberOfDesktops` can count more desktops than the grid has (`Viewport.NumberOfDesktopsExact`,
  `Viewport.OneDesktopTooMany`), and a window moved to a desktop is not always found there
  (`Viewport.MovedWindowIsFound`, `Viewport.MovedWindowIsMissed`).
- The strut cache does not hear of desktop changes (`StrutCacheRuns.DesktopChangeExact`,
  `StrutCacheRuns.ReachableExact`, `StrutCacheRuns.PanelIsMissed`).
- `timestampCompare` is not antisymmetric at three differences (`Timestamps.AntisymmetryExact`,
  `Timestamps.LatestLost`).
- A new startup id is put together by a chain of `QString::arg`, so a host name that holds place
  markers can cost it its timestamp (`StartupIds.StartupIdTimestamp`, `StartupIds.PercentHost`).
- Listeners of `KStartupInfo` are not told of PIDs that go (`StartupSteps.ListenersKnow`).

## Model

| member | source | states |
|---|---|---|
| `Text.TrimmedExactly` | src/kstartupinfo.cpp:195 | trimmed() cuts all white space from both ends and nothing else |
| `Text.SimplifiedIsWords` | src/kstartupinfo.cpp:1305 | simplified() gives the maximal parts without white space, in order, with one space between them |
| `Text.PrintedIsDecimal` | src/kstartupinfo.cpp:978-996 | a number is printed in decimal without leading zeros, after a minus sign if it is negative |
| `Text.ReadIsDecimal` | src/kstartupinfo.cpp:1284-1288 | a number is read as the decimal value of the digits after at most one sign, with white space around them ignored; anything else, and what does not fit 64 bits, as 0 |
| `Fields.EscapeStr` | src/kstartupinfo.cpp:1329-1342 | the loop puts a backslash before every backslash and quote and changes nothing else |
| `Fields.GetFields` | src/kstartupinfo.cpp:1303-1327 | the character loop over the simplified text yields the fields of the recursive tokeniser |
| `Fields.ScanEscaped` | src/kstartupinfo.cpp:1312-1317 | inside quotes, tokenising an escaped value gives back the value, whatever follows it |
| `Fields.SqueezeEscaped` | src/kstartupinfo.cpp:1305 | collapsing white space and escaping commute, so simplified() does not damage escapes |
| `Fields.TokenisePrinted` | src/kstartupinfo.cpp:1303-1327 | tokenising printed groups of entries returns each KEY=value with only white-space runs collapsed, for quotes, backslashes, equals signs and spaces in escaped values |
| `Fields.TokeniseGroup` | src/kstartupinfo.cpp:959-1002 | the same for one printed group |
| `Fields.EscapedLength` | src/kstartupinfo.cpp:1329-1342 | escaping adds one character for every backslash and every quote, and no other |
| `WireFormat.RecordForm` | src/kstartupinfo.cpp:959-1002 | the text printed for a record, key by key, with its quotes, its defaults left out and its escapes |
| `WireFormat.MessageForms` | src/kstartupinfo.cpp:420-508 | the four kinds of messages as they are sent, with the fields that are added to a `new:` |
| `WireFormat.FieldsExactly` | src/kstartupinfo.cpp:1303-1327 | every text is cut at the spaces that are neither in quotes nor escaped, where an escape is a backslash not itself escaped and quotes count unless escaped; marks are dropped and escaped characters kept |
| `WireFormat.ReadingExactly` | src/kstartupinfo.cpp:1004-1038 | for every text: the id and each field of the record are the value of the last field with their key, or the default; desktops are counted from 1, PIDs collected once each, other fields ignored |
| `WireFormat.KindExactly` | src/kstartupinfo.cpp:193-205 | for every text: its kind is what the trimmed text starts with, and the rest is read |
| `StartupData.AddPids` | src/kstartupinfo.cpp:1076-1078 | the addPid loop appends exactly the PIDs not yet listed |
| `StartupData.RemovePids` | src/kstartupinfo.cpp:388-404 | the remove_pid loop leaves exactly the PIDs not named |
| `StartupData.RemainingExact` | src/kstartupinfo.cpp:1222-1225 | from a duplicate-free list, exactly the other PIDs remain, duplicate-free and in their order |
| `StartupData.WithPidsFacts` | src/kstartupinfo.cpp:1215-1220 | adding PIDs is a duplicate-free union |
| `StartupData.WithPidsOrder` | src/kstartupinfo.cpp:1215-1220 | the union is ordered by first appearance |
| `StartupData.Update` | src/kstartupinfo.cpp:1054-1092 | field by field, the statement sequence keeps the first or takes the last set value |
| `StartupData.UpdateAssociative` | src/kstartupinfo.cpp:1054-1092 | merging is associative on every field but xinerama, and on the whole record if and only if the middle record does not hide a change of xinerama |
| `StartupData.XineramaNotAssociative` | src/kstartupinfo.cpp:1086-1088 | three records whose xinerama depends on the order of merging |
| `StartupData.BatchingUpdates` | src/kstartupinfo.cpp:1054-1092 | any run of updates has the effect of one combined update |
| `StartupText.DataToText` | src/kstartupinfo.cpp:959-1002 | the chain of conditional appends prints the record's entries in order |
| `StartupText.ParseId` | src/kstartupinfo.cpp:848-857 | the loop over the fields finds the id |
| `StartupText.ParseData` | src/kstartupinfo.cpp:1004-1038 | the loop over the fields fills the record |
| `StartupText.NewRoundTrip` | src/kstartupinfo.cpp:959-1038 | reading a `new:` message gives the sent id and record, texts collapsed, NAME defaulted to BIN or UNKNOWN and SCREEN to the sender's; desktop, silence, screen and PIDs exactly |
| `StartupText.ChangeRoundTrip` | src/kstartupinfo.cpp:959-1038 | the same for `change:`, without defaults |
| `StartupText.RemoveRoundTrip` | src/kstartupinfo.cpp:959-1038 | the same for `remove:` with data, also for a null id |
| `StartupText.FinishRoundTrip` | src/kstartupinfo.cpp:478-488 | a bare `remove:` carries the id alone |
| `StartupText.SecondRoundTrip` | src/kstartupinfo.cpp:959-1038 | printing and reading what was read once changes nothing more, for `new:`, `change:` and `remove:` messages |
| `Survival.CompleteIsClean` | src/kstartupinfo.cpp:1303-1327 | if the fields of a printed text hold all backslashes, quotes and white space that its entries need, then no raw value holds a backslash or quote and no bare one white space |
| `Survival.ChangeExact` | src/kstartupinfo.cpp:959-1038 | a `change:` message is read back as its id and record if and only if ICON, WMCLASS, APPLICATION_ID and HOSTNAME hold no quote and no backslash and HOSTNAME no white space |
| `Survival.NewExact` | src/kstartupinfo.cpp:420-448 | the same for a `new:` message and the record completed with its defaults |
| `Survival.RemoveExact` | src/kstartupinfo.cpp:497-506 | the same for a `remove:` message with data |
| `Survival.ForgedIcon` | src/kstartupinfo.cpp:974-981 | a failing family: a WMCLASS of the form `v" ICON="w` makes the receiver read w as the icon |
| `XMessages.FillData` | src/platforms/xcb/kxmessages.cpp:251-256 | the two inner loops copy up to 20 bytes and pad with zeros |
| `XMessages.SendMessage` | src/platforms/xcb/kxmessages.cpp:236-261 | the send loop emits a beginning fragment and continuations up to one that is not full |
| `XMessages.FragmentsExactly` | src/platforms/xcb/kxmessages.cpp:236-261 | fragment k carries the bytes from 20 k on, padded with zeros; only the first is a beginning; there are length / 20 + 1 of them |
| `XMessages.Receiver.NativeEventFilter` | src/platforms/xcb/kxmessages.cpp:126-166 | one client message changes the stored partials and delivers as the abstract receiver does |
| `XMessages.WindowsAreIndependent` | src/platforms/xcb/kxmessages.cpp:144-164 | in every interleaving, what happens at a window depends on its own fragments only |
| `XMessages.Reassembly` | src/platforms/xcb/kxmessages.cpp:126-166 | for every interleaving each window's messages are delivered once and in order, no partial remains, and a tail whose beginning was missed is dropped |
| `XMessages.UnchangedExactly` | src/platforms/xcb/kxmessages.cpp:141-161 | messages arrive with identical bytes if and only if they contain no zero byte, lengths that are multiples of 20 included |
| `XMessages.PartialsAreWhole` | src/platforms/xcb/kxmessages.cpp:144-163 | every stored partial is a non-empty multiple of 20 bytes |
| `EndToEnd.CollapsedIdIsReal` | src/kstartupinfo.cpp:934-937 | collapsing white space never turns a real id into a null one, nor the reverse |
| `EndToEnd.TextArrivesOnce` | src/platforms/xcb/kxmessages.cpp:126-261 | any text without zero bytes, sent as a message of a window, its fragments interleaved with any others, is delivered once and makes the receiver, between any ticks and windows, handle it in one step |
| `EndToEnd.StartupArrivesOnce` | src/kstartupinfo.cpp:420-448 | for a record sent with sendStartup that step is one call of new_startup_info_internal with its id and record, completed and collapsed |
| `EndToEnd.ChangeArrivesOnce` | src/kstartupinfo.cpp:458-468 | the same for sendChange, without completion |
| `EndToEnd.FinishDataArrivesOnce` | src/kstartupinfo.cpp:497-508 | the same for sendFinish with data, for a null id too: the removal that the id and the PIDs ask for |
| `EndToEnd.FinishArrivesOnce` | src/kstartupinfo.cpp:478-488 | the same for sendFinish with the id alone: the entry of that id is removed |
| `EndToEnd.StartupIsStored` | src/kstartupinfo.cpp:319-330 | a registry that does not know the id announces exactly that record, or keeps it without a signal if it is silent and silence is not announced |
| `StartupRegistry.KStartupInfo.constructor` | src/kstartupinfo.cpp:156-163 | a fresh object is empty and does not tick |
| `StartupRegistry.KStartupInfo.GotMessage` | src/kstartupinfo.cpp:193-205 | the message dispatch has the effect of the abstract step |
| `StartupRegistry.KStartupInfo.GotStartupInfo` | src/kstartupinfo.cpp:263-271 | parses, ignores null ids, and stores or updates |
| `StartupRegistry.KStartupInfo.NewStartupInfo` | src/kstartupinfo.cpp:273-330 | all branches over the three maps, silence and the update flag |
| `StartupRegistry.KStartupInfo.UpdateAnnounced` | src/kstartupinfo.cpp:278-291 | an announced entry is merged and rejuvenated, and withdrawn if it became silent |
| `StartupRegistry.KStartupInfo.UpdateSilent` | src/kstartupinfo.cpp:292-305 | a silent entry is merged and rejuvenated, and announced if it is silent no more |
| `StartupRegistry.KStartupInfo.UpdateUninited` | src/kstartupinfo.cpp:306-317 | an uninited entry is merged, keeps its age, and is announced by a `new:` |
| `StartupRegistry.KStartupInfo.GotRemoveStartupInfo` | src/kstartupinfo.cpp:332-345 | removal of an entry, of PIDs, or of PIDs without an id |
| `StartupRegistry.KStartupInfo.RemoveAllStartupInfo` | src/kstartupinfo.cpp:347-365 | removal from the first map that holds the id, with a signal only for an announced one |
| `StartupRegistry.KStartupInfo.RemoveStartupPids` | src/kstartupinfo.cpp:388-410 | drops PIDs in place and the entry when none is left |
| `StartupRegistry.KStartupInfo.RemoveAnyStartupPids` | src/kstartupinfo.cpp:373-386 | the walk in key order stops at the first entry with the hostname and the first PID |
| `StartupRegistry.KStartupInfo.FindPid` | src/kstartupinfo.cpp:677-696 | the walk reports and removes the first announced entry in key order with the PID and the hostname |
| `StartupRegistry.KStartupInfo.FindWClass` | src/kstartupinfo.cpp:698-720 | the walk reports and removes the first announced entry in key order with the class, whatever its case |
| `StartupRegistry.KStartupInfo.CheckStartup` | src/kstartupinfo.cpp:601-657 | verdict, effect, and the id and record reported for a window, by startup id, PID, class, type and transience |
| `StartupRegistry.KStartupInfo.WindowAdded` | src/kstartupinfo.cpp:244-261 | a window that cannot be detected triggers the noncompliant clean-up if the flag is set |
| `StartupRegistry.KStartupInfo.CleanAllNoncompliant` | src/kstartupinfo.cpp:802-811 | the erase-while-iterating loop removes exactly the noncompliant entries and signals each once, in key order |
| `StartupRegistry.KStartupInfo.SetTimeout` | src/kstartupinfo.cpp:749-754 | the timeout changes and one clean-up is scheduled |
| `StartupRegistry.KStartupInfo.StartupsCleanupNoAge` | src/kstartupinfo.cpp:756-759 | a scheduled clean-up drops what is too old for the new timeout, without ageing anything |
| `StartupRegistry.KStartupInfo.CheckCleanup` | src/kstartupinfo.cpp:770-800 | the loop ages one map and erases exactly the entries whose age has reached their limit |
| `StartupRegistry.KStartupInfo.StartupsCleanupInternal` | src/kstartupinfo.cpp:770-800 | the same for the three maps, with signals for announced entries only |
| `StartupRegistry.KStartupInfo.StartupsCleanup` | src/kstartupinfo.cpp:761-768 | the timer slot stops the timer when all maps are empty |
| `RegistryRuns.StartIsGood` | src/kstartupinfo.cpp:156-163 | a fresh registry meets the invariant |
| `RegistryRuns.RegistryInvariant` | src/kstartupinfo.cpp:273-410 | in every reachable state the maps have disjoint keys, silent_startups holds only silent entries and none under AnnounceSilenceChanges, the timer runs while any map is non-empty, PID lists are duplicate-free |
| `StartupEntries.EntersExactly` | src/kstartupinfo.cpp:319-330 | an unknown id gets into the registry by no operation but the first `new:` or `change:` about it, if it is real: announced, silent or waiting for its `new:`, with exactly that record and age 0 |
| `StartupEntries.StepShows` | src/kstartupinfo.cpp:306-317 | for every operation, without AnnounceSilenceChanges: a silent id is among the announced ones afterwards if and only if a `new:` just completed an uninited entry to a silent record, or it was there, stays and got no record |
| `StartupEntries.SilentAnnouncedExactly` | src/kstartupinfo.cpp:306-317 | over every run: a silent id is among the announced ones if and only if the last record it got was such a `new:` and it has stayed since |
| `EndToEnd.SilentYetAnnounced` | src/kstartupinfo.cpp:306-330 | for every real id and silent record, a `change:` creates an entry and the `new:` after it announces the silent startup |
| `EndToEnd.SilentExample` | src/kstartupinfo.cpp:306-330 | two concrete messages that do so |
| `RegistryRuns.StepAccounted` | src/kstartupinfo.cpp:273-410 | every step, on every path, signals New exactly when an id enters startups and Remove exactly when it leaves |
| `RegistryRuns.SignalLedger` | src/kstartupinfo.cpp:273-410 | over every run New and Remove of each id strictly alternate starting with New, and the id is in startups if and only if New came last |
| `RegistryRuns.BalancedCounts` | src/kstartupinfo.cpp:273-410 | the count of New minus Remove is one when announced, else zero |
| `RegistryRuns.BoundedLifetime` | src/kstartupinfo.cpp:770-800 | an untouched entry disappears at exactly tick max(1, limit - age), with one Remove signal if and only if it was announced |
| `RegistryRuns.UninitedIsDropped` | src/kstartupinfo.cpp:306-316 | however many `change:` messages arrive, an uninited entry never sees 20 timeouts of ticks |
| `RegistryRuns.PidRemoval` | src/kstartupinfo.cpp:388-410 | a `remove:` message with an id and PIDs leaves the entry in its map with its other PIDs in order and drops it exactly when none is left; all other entries stay |
| `RegistryRuns.AnonymousPidRemoval` | src/kstartupinfo.cpp:373-386 | a `remove:` message with PIDs and no id does that to the lowest-keyed announced entry with the hostname and the first PID, and to no other |
| `RegistryRuns.StoredRecord` | src/kstartupinfo.cpp:273-330 | over any run that keeps an entry and its PIDs, the stored record is that of the first message updated by those of all later ones |
| `RegistryRuns.RegistryField` | src/kstartupinfo.cpp:1054-1092 | so each stored field is the first value sent (name, description, icon, desktop, application id) or the last one (bin, class, hostname, silence, screen) |
| `RegistryRuns.RegistryXinerama` | src/kstartupinfo.cpp:1086-1088 | the stored xinerama is the last value sent if the first message sent one, else none |
| `RegistryRuns.RegistryPids` | src/kstartupinfo.cpp:1215-1220 | and the stored PID list is the duplicate-free union of the messages' PIDs in first-seen order |
| `IdOrder.LessExactly` | src/kstartupinfo.cpp:929-932 | ids are ordered by the first byte that differs, a proper prefix first |
| `StartupWindows.MatchExactly` | src/kstartupinfo.cpp:601-657 | for every state and window: it is a match if and only if its startup id is real and announced, or it has none and some announced startup fits it, by positive PID and set host name, or, if none has these, by WMCLASS or else BIN, equal to name or class up to the case of the letters A to Z |
| `StartupWindows.CheckById` | src/kstartupinfo.cpp:614-621 | with a startup id only that id decides, its record is reported, and nothing is removed |
| `StartupWindows.CheckTakes` | src/kstartupinfo.cpp:631-641 | otherwise the lowest-keyed startup that fits is reported with its record and leaves, alone, with one gotRemoveStartup |
| `StartupWindows.CheckTakesNone` | src/kstartupinfo.cpp:642-657 | if none fits nothing changes, and the window is undetectable if startups are waiting and its type and transience allow it to be awaited |
| `StartupWindows.TakesOrNone` | src/kstartupinfo.cpp:631-641 | one of the two is the case |
| `StartupWindows.AddedExactly` | src/kstartupinfo.cpp:244-261 | an added window that is undetectable under CleanOnCantDetect takes all startups with WMCLASS "0" away and no other; else adding is checking |
| `StartupWindows.KonsoleIsFound` | src/kstartupinfo.cpp:698-720 | a startup with BIN konsole fits a window of class Konsole |
| `StartupSteps.StepExactly` | src/kstartupinfo.cpp:193-410 | for every operation and every id: where the id is stored afterwards, with which record and age, and the signals about it, whole and in order; a record for a known id is told as Change, Remove, New or not at all, merged, and every Remove carries the stored record |
| `StartupSteps.RunTells` | src/kstartupinfo.cpp:193-410 | over every run the signals about an id are exactly those |
| `StartupSteps.ListenersKnow` | src/kstartupinfo.cpp:193-410 | over every run a listener that keeps what New and Change carry until a Remove knows exactly the announced startups with their stored records, except for PIDs that have gone |
| `StartupSteps.ListenersKnowFromTheStart` | src/kstartupinfo.cpp:193-410 | in particular from a fresh object on |
| `StartupSteps.TimersExactly` | src/kstartupinfo.cpp:749-768 | for every operation: the time-out, the scheduled clean-ups, and the one-second timer, which starts when an id gets an entry and stops at a tick that finds none |
| `SelectionOwner.KSelectionOwner.constructor` | src/platforms/xcb/kselectionowner.cpp:48-64 | a fresh object is idle and owns nothing |
| `SelectionOwner.KSelectionOwner.Claim` | src/platforms/xcb/kselectionowner.cpp:249-265 | claim up to reading the current owner |
| `SelectionOwner.KSelectionOwner.ClaimReply` | src/platforms/xcb/kselectionowner.cpp:265-304 | claim from there on: fail, or select events, create the window and ask for a timestamp |
| `SelectionOwner.KSelectionOwner.GotTimestamp` | src/platforms/xcb/kselectionowner.cpp:194-205 | sets the selection and asks for the owner to verify |
| `SelectionOwner.KSelectionOwner.VerifyReply` | src/platforms/xcb/kselectionowner.cpp:207-227 | failure, waiting for the previous owner, or success |
| `SelectionOwner.KSelectionOwner.ClaimSucceeded` | src/platforms/xcb/kselectionowner.cpp:172-192 | announces the claim and signals it |
| `SelectionOwner.KSelectionOwner.Release` | src/platforms/xcb/kselectionowner.cpp:307-322 | destroys the window and forgets the timestamp, only when owning |
| `SelectionOwner.KSelectionOwner.OwnerWindow` | src/platforms/xcb/kselectionowner.cpp:324-334 | reports the window only while the timestamp is set |
| `SelectionOwner.KSelectionOwner.TimerEvent` | src/platforms/xcb/kselectionowner.cpp:229-240 | sends the kill request and waits for its end, or fails |
| `SelectionOwner.KSelectionOwner.KillReply` | src/platforms/xcb/kselectionowner.cpp:240-243 | whether the kill request failed or not, the claim succeeds |
| `SelectionOwner.KSelectionOwner.FilterEvent` | src/platforms/xcb/kselectionowner.cpp:345-427 | the effect of SelectionClear, DestroyNotify and PropertyNotify |
| `SelectionRuns.StepKeepsInv` | src/platforms/xcb/kselectionowner.cpp:172-442 | every step of every client, of the server and of foreign clients keeps the invariant that the results below rest on |
| `SelectionRuns.ReportIsRightOrPending` | src/platforms/xcb/kselectionowner.cpp:363-423 | in every reachable state an object that reports a window either is the server's owner or has the event in its queue that will clear it, and exactly one of the two |
| `SelectionRuns.OwnerReportsItself` | src/platforms/xcb/kselectionowner.cpp:194-227 | the server's current owner reports itself, unless it has released and its DestroyWindow is on the way |
| `SelectionRuns.LossIsReal` | src/platforms/xcb/kselectionowner.cpp:363-423 | lostOwnership is emitted only when the reported window no longer owns the selection; a stale SelectionClear is always handled before the PropertyNotify of a new claim |
| `SelectionRuns.AtMostOneOwner` | src/platforms/xcb/kselectionowner.cpp:324-334 | of two objects that both report a window, one has its loss pending |
| `SelectionRuns.ClaimLedger` | src/platforms/xcb/kselectionowner.cpp:172-304 | claims equal outcome signals plus one while a claim runs; the timer runs exactly in WaitingForPreviousOwner |
| `SelectionOutcomes.AskingExactly` | src/platforms/xcb/kselectionowner.cpp:249-265 | claim and release destroy the window that is reported, claim asks for the owner, and neither signals anything |
| `SelectionOutcomes.ClaimAnswered` | src/platforms/xcb/kselectionowner.cpp:265-304 | over every run: the claim fails here if and only if the server named an owner and the application did not force; otherwise the owner found is listened to, a window made and its property changed |
| `SelectionOutcomes.VerificationAnswered` | src/platforms/xcb/kselectionowner.cpp:207-227 | over every run: the claim fails here if and only if the server named another owner at the verification; otherwise it is announced, with the verified window and time, and signalled at once, unless the owner found has not been seen destroyed and force-kill was asked for, and then the object waits |
| `SelectionOutcomes.WaitEnds` | src/platforms/xcb/kselectionowner.cpp:229-243 | over every run: a time-out asks to kill the client of the owner found, and when that is answered the claim is announced and signalled |
| `SelectionOutcomes.EventExactly` | src/platforms/xcb/kselectionowner.cpp:345-427 | over every run, for every event: lostOwnership exactly for SelectionClear or the destruction of a reported window, claimedOwnership when the owner found is destroyed during the wait, and the request for the selection with the time of the property event |
| `SelectionOutcomes.OthersSayNothing` | src/platforms/xcb/kselectionowner.cpp:172-442 | no other step of any client or of the server signals anything to the application or changes its object |
| `SelectionOutcomes.AnswerIsTheOwner` | src/platforms/xcb/kselectionowner.cpp:205-207 | the recorded answer to a verification is the server's owner when the question is executed |
| `SelectionOutcomes.ArgumentsAreKept` | src/platforms/xcb/kselectionowner.cpp:249-256 | the recorded arguments are those of the application's last claim |
| `SelectionRuns.KillIsSafe` | src/platforms/xcb/kselectionowner.cpp:215-242 | a timeout never fails, and asks to kill only the client of the window that owned the selection when the forced, force-kill claim asked for the owner, another client, whose DestroyNotify it has not handled |
| `SelectionKills.GoneAreKilled` | src/platforms/xcb/kselectionowner.cpp:238-240 | a client is recorded as killed exactly from the moment when the server executes a kill request for one of its existing windows |
| `SelectionKills.KilledOwnerIsGone` | src/platforms/xcb/kselectionowner.cpp:238-243 | along every run, when the object goes on after its kill request the previous owner's window is destroyed or its client has been killed, and only then claimedOwnership is emitted |
| `SelectionKills.StepKeepsKillsDone` | src/platforms/xcb/kselectionowner.cpp:238-243 | every step keeps killed clients disconnected, and the previous owner of every answered kill request destroyed or of a killed client |
| `SelectionKills.NewOwnerLives` | src/platforms/xcb/kselectionowner.cpp:204 | a step that gives the selection to another window is for an existing window of a client that has not been killed |
| `SelectionKills.KilledOwnerNeverReturns` | src/platforms/xcb/kselectionowner.cpp:238-243 | over every run and every continuation: unless it owns the selection when the object goes on after its kill request, the previous owner never owns it again |
| `SelectionRuns.FoundIsTheOwner` | src/platforms/xcb/kselectionowner.cpp:265 | what a claim found is the server's owner at the moment its GetOwner request is executed |
| `SelectionRuns.OwnedAreOwners` | src/platforms/xcb/kselectionowner.cpp:204 | only windows that become the owner are recorded as having owned |
| `SelectionRuns.NoSelfKill` | src/platforms/xcb/kselectionowner.cpp:229-242 | every kill request on the way to the server names a window of another client that has owned the selection |
| `SelectionRuns.ClaimedButNotOwning` | src/platforms/xcb/kselectionowner.cpp:363-387 | when claimedOwnership is emitted, the claimed window owns the selection at the server if and only if it was not lost or released since the verification and no loss is waiting in the queue |
| `SelectionRuns.DroppedIsHistory` | src/platforms/xcb/kselectionowner.cpp:307-387 | lost or released since the verification: exactly a signalled lostOwnership or a release while owning |
| `SelectionExamples.ClaimedWhileLost` | src/platforms/xcb/kselectionowner.cpp:205-227 | a run in which claimedOwnership is emitted while another client owns the selection |
| `SelectionExamples.ClaimedAfterLoss` | src/platforms/xcb/kselectionowner.cpp:229-243 | a run in which claimedOwnership is emitted after lostOwnership, while nobody owns the selection |
| `SelectionWatcher.KSelectionWatcher.constructor` | src/platforms/xcb/kselectionwatcher.cpp:144-171 | construction ends in a call of owner() |
| `SelectionWatcher.KSelectionWatcher.GotOwner` | src/platforms/xcb/kselectionwatcher.cpp:180-191 | no owner, the known owner, or a new one to subscribe to |
| `SelectionWatcher.KSelectionWatcher.Check` | src/platforms/xcb/kselectionwatcher.cpp:193-209 | announces the owner only if it is still there and still the owner, else forgets it |
| `SelectionWatcher.KSelectionWatcher.FilterEvent` | src/platforms/xcb/kselectionwatcher.cpp:212-242 | MANAGER messages and the destruction of the tracked owner call owner() |
| `SelectionWatcher.StepKeepsInv` | src/platforms/xcb/kselectionwatcher.cpp:173-242 | every step of the watcher, of the server and of other clients keeps the watcher's invariant |
| `SelectionWatcher.TrackedOwnerIsWatched` | src/platforms/xcb/kselectionwatcher.cpp:173-210 | in any server interleaving the tracked owner is a window whose destruction is subscribed to, or whose DestroyNotify is in the queue |
| `SelectionWatcher.LossFollowsNews` | src/platforms/xcb/kselectionwatcher.cpp:173-242 | every lostOwner comes right after a newOwner, and the tracked owner is the one announced last |
| `WatcherTracking.SignalsExactly` | src/platforms/xcb/kselectionwatcher.cpp:173-242 | for every step in every reachable state: newOwner exactly when another owner comes to be tracked, lostOwner exactly when a call that a destruction caused ends with none |
| `WatcherTracking.CallsExactly` | src/platforms/xcb/kselectionwatcher.cpp:173-242 | for every step: what begins a call of owner(), and its order of asking, subscribing, asking again and checking |
| `SelectionWatcher.DestructionIsReported` | src/platforms/xcb/kselectionwatcher.cpp:231-241 | handling the tracked owner's destruction emits exactly one of newOwner and lostOwner, whatever others do meanwhile |
| `SelectionWatcher.TrackedUntil` | src/platforms/xcb/kselectionwatcher.cpp:173-242 | in every reachable state a tracked owner stays tracked until its destruction is handled, another owner is announced, or a failed check forgets it; only the last happens without a report |
| `SelectionWatcher.SilentLoss` | src/platforms/xcb/kselectionwatcher.cpp:196-203 | a run that forgets a living, announced owner without lostOwner |
| `WatcherTracking.TrackedExactly` | src/platforms/xcb/kselectionwatcher.cpp:173-210 | between calls, over every run: the tracked owner is the server's owner if and only if the owner now is what the last call found and confirmed, or, where it found none, what was tracked before, or, where its check failed, none |
| `WatcherTracking.StableOwnerIsTracked` | src/platforms/xcb/kselectionwatcher.cpp:173-242 | if the owner has not changed since the last call asked and all events are handled, the tracked owner is the server's owner if and only if the selection has an owner or the tracked window does not exist |
| `WatcherTracking.AnnouncedOwnerIsTracked` | src/platforms/xcb/kselectionwatcher.cpp:212-230 | the same if a MANAGER message was sent, or owner() called, after the owner's last change, whatever else happened |
| `WatcherTracking.OwnerNotNoticed` | src/platforms/xcb/kselectionwatcher.cpp:219-230 | a run after which another window owns the selection, nothing is left to handle, and the old owner is still tracked |
| `WatcherTracking.ReleaseNotNoticed` | src/platforms/xcb/kselectionwatcher.cpp:180-183 | a run in which the watcher looks, finds no owner, and goes on tracking the window that gave the selection up |
| `Viewport.CellExactly` | src/kx11extras.cpp:1188-1200 | the column or row of a coordinate is the one whose pixels hold it, the first before them all and the last whole one beyond the geometry |
| `Viewport.DesktopExactly` | src/kx11extras.cpp:1188-1200 | desktops are numbered from 1, row by row |
| `Viewport.CornerRoundTrip` | src/kx11extras.cpp:1188-1250 | viewportToDesktop inverts the absolute desktopToViewport on every desktop |
| `Viewport.InsideCell` | src/kx11extras.cpp:1188-1250 | every point of a desktop's cell lies in the geometry and maps to that desktop |
| `Viewport.PointRoundTrip` | src/kx11extras.cpp:1188-1250 | the desktop of a point has the corner of the point's cell if and only if the point is not in the strip left over beside the grid |
| `Viewport.NumberOfDesktopsExact` | src/kx11extras.cpp:643-648 | numberOfDesktops is never less than columns times rows, and equal if and only if the leftover rows do not add up to a display |
| `Viewport.OneDesktopTooMany` | src/kx11extras.cpp:643-648 | a geometry with room for two desktops on which three are counted |
| `Viewport.EveryPointHasADesktop` | src/kx11extras.cpp:1188-1200 | for an exact multiple every point, even outside, maps into 1..numberOfDesktops |
| `Viewport.AxisMoves` | src/kx11extras.cpp:706-732 | on one axis, relative origin, wrap-around and centring put the window's centre at the desktop's corner plus offset, modulo the geometry |
| `Viewport.RelativeExactly` | src/kx11extras.cpp:1202-1250 | a relative position of a desktop lies in the geometry and differs from its corner less the origin by whole geometries, and is (0, 0) for a number that is no desktop; so does a constrained position |
| `Viewport.SetOnDesktop` | src/kx11extras.cpp:696-736 | for every position (negative too), size, origin and desktop, the requested top-left lies in the geometry and the centre is congruent to a point of the requested desktop, keeping its place on the display; with the closed form of the result |
| `Viewport.CentreExact` | src/kx11extras.cpp:1073 | QRect::center of a window, with its truncation toward zero |
| `Viewport.MovedWindowIsFound` | src/kx11extras.cpp:1065-1082 | for every screen, desktop, position and size: after the move, viewportWindowToDesktop finds the window on that desktop if and only if on each axis half the window fits before its centre and rounding does not carry the centre over a cell edge, or it does not fit and the cell is the last; with the exact exception of the last pixel of an incomplete row or column; all in terms of what is known before the move |
| `Viewport.MovedWindowIsMissed` | src/kx11extras.cpp:1065-1082 | a window moved to desktop 2 that is found on desktop 1 |
| `StrutCache.NETEventFilter.RemoveStrutWindow` | src/kx11extras.cpp:370-379 | the loop erases the first entry of the window and says whether there was one |
| `StrutCache.NETEventFilter.AddClient` | src/kx11extras.cpp:389-420 | caches a strut that is set if strutChanged is connected, else notes the window as possible |
| `StrutCache.NETEventFilter.RemoveClient` | src/kx11extras.cpp:422-439 | forgets the window everywhere and signals a lost strut |
| `StrutCache.NETEventFilter.StrutEvent` | src/kx11extras.cpp:352-364 | a dirty strut is dropped from the cache and asked for again |
| `StrutCache.NETEventFilter.ConnectNotify` | src/kx11extras.cpp:1149-1165 | connecting strutChanged switches the caching mode |
| `StrutCache.NETEventFilter.WorkArea` | src/kx11extras.cpp:913-979 | the nested loops compute the walk over the managed windows, filling the cache on the way |
| `StrutCacheRuns.VisitedKeeps` | src/kx11extras.cpp:932-958 | reading one window's strut keeps lists and knowledge of every other window |
| `StrutCacheRuns.WalkedIsTrue` | src/kx11extras.cpp:913-979 | the memoised fold equals the fold over struts read from the server, if every window asked for has a right strut and a right desktop or a strut that takes nothing |
| `StrutCacheRuns.StepKeeps` | src/kx11extras.cpp:331-439 | adding, removing, connecting, property changes, events and calls all keep the cache invariant |
| `StrutCacheRuns.ListsStayInOrder` | src/kx11extras.cpp:331-439 | in every reachable state cached and possible windows are disjoint, duplicate-free subsets of the managed ones, and a wrong cached strut has its event pending |
| `StrutCacheRuns.CacheTransparency` | src/kx11extras.cpp:913-979 | along every run in which managed windows keep their desktop, the cached workArea equals the one read from the server whenever no strut event of a window that counts is pending |
| `StrutCacheRuns.WorkAreaPixels` | src/kx11extras.cpp:913-979 | pixel by pixel, under the same conditions: a point is in the work area if and only if it is on the display and no managed, not excluded window shown on the desktop reserves it, on its left, right, top or bottom, by its strut on the server |
| `StrutCacheRuns.SignalsExactly` | src/kx11extras.cpp:352-439 | for every operation: windowAdded, windowRemoved and strutChanged, in order |
| `StrutCacheRuns.ManagedWindows` | src/kx11extras.cpp:389-439 | over every run the managed windows are those added and not removed since, in order, and strutChanged counts as connected once anybody has connected it |
| `StrutCacheRuns.RemovalIsHeard` | src/kx11extras.cpp:422-439 | over every run: once somebody listens, a window that goes with a strut that takes space and has no event pending is reported with strutChanged |
| `StrutCacheRuns.NothingLeftToAsk` | src/kx11extras.cpp:930-958 | after a call only excluded windows are still to be asked |
| `StrutCacheRuns.DesktopChangeExact` | src/kx11extras.cpp:939-953 | with right struts, workArea is right for every question if and only if each of the windows that count has its true desktop in the cache or a strut that takes nothing, however many have moved |
| `StrutCacheRuns.ReachableExact` | src/kx11extras.cpp:913-979 | the same in every reachable state, whatever changes desktop, for the calls that exclude the windows with a strut event pending |
| `StrutCacheRuns.PanelIsMissed` | src/kx11extras.cpp:939-953 | a run after which workArea ignores a panel that has moved to the desktop |
| `Timestamps.CompareExact` | src/platforms/xcb/kxutils.cpp:127-135 | the comparison has the sign of the true difference exactly from -0x80000001 to 0x7ffffffe |
| `Timestamps.AntisymmetryExact` | src/platforms/xcb/kxutils.cpp:127-135 | it is antisymmetric except at 0x7fffffff, 0x80000000 and 0x80000001 |
| `Timestamps.DiffExact` | src/platforms/xcb/kxutils.cpp:137-143 | timestampDiff is the true distance if and only if that fits an int |
| `Timestamps.LaterExact` | src/kusertimestamp.cpp:40-45 | one update keeps the later of two true times if and only if they are close enough |
| `Timestamps.LatestWins` | src/kusertimestamp.cpp:30-45 | after any sequence of updates within a window, in any order, the user time is the maximum |
| `Timestamps.LatestLost` | src/kusertimestamp.cpp:30-45 | two times 0x7fffffff apart of which the later one is lost |
| `StartupIds.LastIndexExactly` | src/kstartupinfo.cpp:945 | lastIndexOf gives the last occurrence, and -1 if and only if there is none |
| `StartupIds.TimestampExactly` | src/kstartupinfo.cpp:939-957 | for every id: its time is what the text after the last _TIME stands for, in decimal, negative numbers by their 64-bit image, and 0 if that is no number or does not fit |
| `StartupIds.NoTimestamp` | src/kstartupinfo.cpp:939-957 | an id without _TIME has the time 0 |
| `StartupIds.StartupIdTimestamp` | src/kstartupinfo.cpp:833 | for every host name, time of day, process and time: the new id carries the time back if and only if no place marker in the host name is in the way of one of the template when that is filled; otherwise the time in it is 0 |
| `StartupIds.PlainTimestamp` | src/kstartupinfo.cpp:833 | so it does for every host name without a percent sign |
| `StartupIds.PlainId` | src/kstartupinfo.cpp:833 | and the id is then the host name and the decimal numbers, in order |
| `StartupIds.PercentHost` | src/kstartupinfo.cpp:833 | a host named %1 makes every id lose its time |
| `Timestamps.NegativeTimestamp` | src/kstartupinfo.cpp:939-957 | a timestamp written as a negative number is read as its wrapped image |
| `Timestamps.LaunchThenUse` | src/kstartupinfo.cpp:532-555 | the startup id's time followed by user actions leaves the latest of them, for host names without a percent sign |
| `Timestamps.Application.UpdateUserTimestamp` | src/kusertimestamp.cpp:30-45 | both application times are moved forward, with the server's time for 0 |
| `Timestamps.Application.SetStartupId` | src/kstartupinfo.cpp:532-555 | the id is stored and its time taken over, unless it is the current one |
| `ErrorHandlers.ErrorHandling.Create` | src/kxerrorhandler.cpp:39-55 | a new handler remembers the X handler it replaces and goes on top |
| `ErrorHandlers.ErrorHandling.AddHandler` | src/kxerrorhandler.cpp:66-74 | the array grows by 16 when full and keeps all handlers |
| `ErrorHandlers.ErrorHandling.Destroy` | src/kxerrorhandler.cpp:57-64 | the X handler from before construction is installed again |
| `ErrorHandlers.ErrorHandling.HandlerWrapper` | src/kxerrorhandler.cpp:89-96 | dispatch below the position, which is restored |
| `ErrorHandlers.ErrorHandling.Handle` | src/kxerrorhandler.cpp:98-126 | take the error or fall through to the handler replaced |
| `ErrorHandlers.ErrorHandling.Note` | src/kxerrorhandler.cpp:104-122 | only the first error that counts is remembered |
| `ErrorHandlerRuns.IsForExact` | src/kxerrorhandler.cpp:98-103 | a handler claims exactly the errors of its display from its first request on if and only if serial and request are within half a wrap |
| `ErrorHandlerRuns.GoesToInnermost` | src/kxerrorhandler.cpp:89-126 | an error goes to the innermost handler on its display created no later than the request, else to the original handler; no other handler changes |
| `ErrorHandlerRuns.OriginalRestored` | src/kxerrorhandler.cpp:39-74 | however handlers come and go, the original X handler is installed whenever the stack is empty |
| `ErrorHandlerRuns.FirstErrorRemembered` | src/kxerrorhandler.cpp:117-121 | over any run: a living handler created without a function remembers the first error it took; one with a function the first for which that returned true, or a number other than 0; and it has seen an error if and only if there is one |
| `ErrorHandlerRuns.PlainHandlerReports` | src/kwindowinfo.cpp:66-105 | over every run after its creation: a handler made without a function reports an error if and only if one came to it |
| `ErrorHandlerRuns.BracketRestores` | src/kxerrorhandler.cpp:39-74 | creating handlers, taking errors and destroying them in reverse order restores the X handler and every older handler but for what it remembers |

## Left out

- The conversion between QString and UTF-8: the same sequence of characters is printed, cut into
  fragments, put together and read. White space is that of `QChar::isSpace`; lower-casing is
  that of `QByteArray::toLower`, for ASCII letters only.
- StartupIds.Substituted: place markers with an L get the number in its plain form, not in the
  form of the locale, and only ASCII digits make a marker. Only host names can hold markers.
- Timestamps.LaunchThenUse: for host names without a percent sign, because the id of any other may
  have lost the time before the application sees it (`StartupIds.StartupIdTimestamp` says when).
- Host names, environment variables, `gettimeofday`, locale and `QStandardPaths` lookups: values
  they give are parameters.
- Slots that call back into an object while it emits a signal: listeners are passive.
- A zero byte inside a message cuts it there; what the later fragments of such a message do is
  modelled (they are dropped), but no guarantee beyond the cut is promised.
- The do-while loop of `send_message_internal` is written as a while loop that starts true.
- X server: one selection; requests of one client are executed in order; foreign clients only
  make windows of their own the owner; window ids are not reused; server time is unbounded; the
  windows of a killed client are destroyed some time later, by a step of their own; what kills a
  client other than a kill request of one of the objects.
- SelectionRuns.OwnerReportsItself: speaks of objects between steps only, because inside `claim`,
  `gotTimestamp` and `timeout` the object is blocked in a round trip, and such states are covered by the
  invariant only.
- Several selection owners that share a connection, and the destructor of `KSelectionOwner`.
- Selection requests (TARGETS, MULTIPLE, TIMESTAMP): property writes without protocol state.
- `SelectionWatcher`: window ids are not reused; the interning of the MANAGER atom and the event
  mask of the root window.
- 32-bit overflow in the viewport arithmetic, device pixel ratios other than 1, and NETRootInfo.
- `workArea`: the server does not change its properties during one call; a strut that leaves no
  room (an inverted `QRect`); the re-creation of the event filter by `init`.
- The mutex of `KXErrorHandler`, and other code that installs X error handlers between two of
  ours. The return value of a foreign handler.
- `QX11Info` keeps times as given; its own storage is not part of this model.
- `NETRootInfo`, `NETWinInfo` and `netwm.cpp` are not part of this model; what they return is
  input.
- `src/kkeyserver.cpp`, Wayland, `KWindowInfo` getters, effects, shadows, activation, icons and
  plugins: tables, wrappers and bookkeeping.
