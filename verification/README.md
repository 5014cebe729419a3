# A model of mai's host, terminal and event machinery

mai watches coding agents that run in zellij sessions on several hosts. On every host a small
probe reads hook records from a spool, polls zellij and scrapes screens; the app keeps one
connection per host for the probe and one for terminals, folds everything into one view and alerts
the user. This project models the parts where that can go wrong and proves what they guarantee:

- **The terminal task** (`Terminals`): one task owns a connection, the open terminals, their PTYs
  and the opens that wait. Every connect and attach is a point at which any commands may be handled.
- **Event delivery** (`DayLogs`, `Spools`, `Pipelines`, `Deliveries`, `CatchUps`,
  `Acknowledgements`, `Histories`, `Handovers`, `Trackers`, `Authorities`): an
  append-only log in day files, packed cursors, the grace period after midnight, redelivery after
  reconnects, the queue and the generation filter between the host task and the tracker, and in the
  tracker de-duplication by offset and the authority of hooks over screens.
- **Change-only messages** (`Panes` with `Bindings`, `Servers` with `Polls`, `Monitors`): the probe
  sends only what changed, the monitor rebuilds the whole and again sends only what changed.
- **Small protocols under interference or failure** (`Managers`, `HopStates`, `Swaps`, `Hosts` with
  `Backoffs`).
- **Algebraic cores** (`Installs`, `Quoting`, `PowerShells`, `HostKeys`, `StderrTails`).

`Wrappers` holds the `Option` and `Result` types, `Seqs` slices of concatenated sequences.

## How to read the models

Objects that change in place are classes whose methods carry contracts over their whole new state:
`Terminals.Terms`, `Spools.Spool`, `Trackers.Tracker`, `Servers.Server`, `Monitors.Monitor`,
`Swaps.BinFiles`, `Hosts.Host`, `StderrTails.StderrTail`. Protocols whose point is interleaving
(`Deliveries`, `Handovers`, `Managers`, `HopStates`) are step systems; their theorems hold at every
point of every run.

What the programs wait for is a parameter, quantified over in every theorem: the outcome of each
connect and attach together with the commands handled meanwhile (`Terminals.Await`), what a select
yields, zellij's answers and dumps, which file operations fail, when commands arrive and how long
things take. Parsing of spool lines, hook mapping, scrape rules and the hashing of host names are
functions given from outside. Times are milliseconds.

- In `Terminals`, PTYs are numbered in the order they were attached; `World` groups the terminals
  with everything that was sent to them and to their PTYs, so that a law can speak of all of it.
  `refused` counts attaches that found the connection down; it is proved to stay 0.
- In `Deliveries`, the spool is what one read from the first cursor returns; `Pipelines` proves that
  every run of the probe over its files, with records landing, drains, deliveries, reconnects and
  clean-up, comes to a state that the protocol reaches. One server is live at a time, only files
  whose records were received are cleaned up, and the acknowledgement file may be unreadable, which
  restarts from cursor 0.
- `Handovers` continues from there: an event that the host task hands over is acknowledged at once
  but only queued for the monitor, which drops it unless it knows the sending incarnation of the
  host as the current one. Incarnations are numbered per host. A spool event is never the first of
  its incarnation, so the monitor has heard of the incarnation by then
  (`Managers.LaterEventFindsAdded`). `Histories` says what the tracker makes of any such history.
- In `Managers`, the select polls the control channel and then the event channel, and the manager
  may act in between, because it runs on another thread.
- `Authorities`, `Bindings` and `Polls` say of `Trackers`, `Panes` and `Servers` what comes of any
  history or poll in terms of what happened alone: the operations of a tracker, the steps of a pane,
  zellij's answers. So does `Terminals.World.PtyHears` of the commands of a terminal.
- In `Hosts`, a run is its log; `Read` accepts exactly the logs in which every entry was allowed when
  it happened, `Host.Run` is proved to produce only such logs, and the laws are stated about all of
  them.
- In `Installs`, JSON objects keep the order of their keys, as the repository configures its JSON
  library to do, so the restore laws include key order.

## Where the code does less than it promises

Each of these keeps the code as it is and states exactly when the promise holds.

- **Cursors** round-trip if and only if the day is below 2^24 and the offset below 2^40
  (`DayLogs.CursorRoundTrip`).
- **Change-only polls** rebuild the server's lists for every session list without two live sessions
  of one name (`Servers.PollAgrees`); with two, some answers mislead the view
  (`Servers.DuplicateNamesMislead`).
- **Host generations**: at each event the filter decides by what was current at the select's last
  poll of the control channel (`Managers.AppliedIffCurrentAtPoll`). So an event of the current
  incarnation is dropped if and only if the host was added between the two polls
  (`Managers.CurrentDroppedIffAddedBetweenPolls`), and an event of a removed or earlier incarnation is
  applied if and only if that incarnation was removed, and not also added, between them
  (`Managers.StaleAppliedIffRemovedBetweenPolls`). Both happen
  (`Managers.AddBetweenPollsDropsFirstEvent`, `Managers.RemoveBetweenPollsAppliesStaleEvent`); neither
  does when the manager does not act between the polls (`Managers.QuietManagerFiltersExactly`).
- **Effect-once delivery**: redelivered events never have an effect, and those that have one are the
  spool's events in cursor order without gaps if and only if the monitor took each event in time, that
  is, before hearing that its incarnation was removed, only after it had so taken those of all earlier
  records (`Handovers.EffectOnce`). While nothing is dropped, nothing is missing
  (`Handovers.NothingMissingUntilDropped`), and nothing is dropped if and only if every event is taken
  in time (`Handovers.NothingDroppedIff`). A drop need not hurt: a host removed and added again catches
  up (`Handovers.ReaddedHostCatchesUp`). But an event that the probe has been told to forget can have
  no effect: `Handovers.AcknowledgedLostIff` says exactly when, it is dropped in the run of
  `Handovers.RemovalLosesAcknowledgedEvent` and comes too late in that of `Handovers.LateEventIsIgnored`,
  and `Handovers.LostForGood` shows that a dropped one is not sent again while acknowledgements can be
  read.
- **A resize during a terminal's own attach** reaches the terminal but not its new PTY: the two agree
  on the size if and only if the last such resize, if any, is to the size before
  (`Terminals.World.SizesAgreeIff`); `Terminals.ResizeDuringAttachIsLost` is a run in which they do not.
- **"A full period after every prompt"**: when the timer gives up, a prompt has had its full period if
  and only if it was counted before the timer's last check
  (`HopStates.FullPeriodIffCountedBeforeCheck`); `HopStates.GivesUpRightAfterPrompt` is a run in which
  it has not. The comment in `ssh/client.rs` promises more than the code.
- **PowerShell quoting** doubles the ASCII apostrophe only, while PowerShell also ends a literal at
  U+2018 to U+201B. The round trip holds if and only if no word contains one of those
  (`PowerShells.PowerShellRoundTripIff`, `PowerShells.TypographicPathMisread`).
- **Merging hooks** is idempotent if and only if the command contains the marker
  (`Installs.MergeIdempotentIff`); removing undoes merging up to an empty `hooks` object that stays
  behind if and only if there was none (`Installs.RemoveUndoesMerge`).

## Model

| member | source | states |
|---|---|---|
| `Backoffs.DelayIsCappedPowerOfTwo` | crates/mai-core/src/host.rs:187-206 | The k-th delay since a reset is 2^k seconds, at most a minute. |
| `Terminals.RunTerms` | crates/mai-core/src/term.rs:603-651 | For every script of awaits and selects and every number of iterations: the loop-head invariant holds, or the task ended with every PTY closed; no attach ever finds the connection down; every iteration takes from the select or answers an open. |
| `Terminals.Terms.Run` | crates/mai-core/src/term.rs:619-650 | The same from any loop head; the task ends only because it was told to, at a head or inside an await. |
| `Terminals.Terms.Step` | crates/mai-core/src/term.rs:620-648 | One iteration keeps the loop-head invariant; the oldest waiting open is answered before anything else, otherwise what the select yielded is done. |
| `Terminals.Terms.Select` | crates/mai-core/src/term.rs:630-647 | Commands are obeyed, PTY output is delivered, and the timer of a lost connection reconnects when it is due, with the outcome the connect and the attaches give it. |
| `Terminals.Terms.Command` | crates/mai-core/src/term.rs:567-589 | An open is answered once, with a new attached terminal or with the reason for which a connect or attach failed; input, resize and close act on exactly their terminal; a retry reconnects only a lost connection. |
| `Terminals.Terms.Answered` | crates/mai-core/src/term.rs:571-575 | One more answer, to this request, after all earlier ones; false only if told to stop meanwhile. |
| `Terminals.Terms.Local` | crates/mai-core/src/term.rs:240-263 | The new state after one command: what `Terminals.World.LocalIsHeard` says of terminals and PTYs, and an open queued behind the others; the invariant and the order of opens stay. |
| `Terminals.World.LocalIsHeard` | crates/mai-core/src/term.rs:240-263 | An input, resize or close sends its terminal's PTY exactly that and no other PTY anything; a resize changes the size of its terminal, a close removes it, and nothing else changes. |
| `Terminals.World.PtyHears` | crates/mai-core/src/term.rs:240-280 | Over any commands handled in a wait, a held PTY hears exactly the inputs, resizes and close of its terminal among them, in order, every other PTY nothing, and terminals go away exactly by a close. |
| `Terminals.OpenIsQueued` | crates/mai-core/src/term.rs:260-260 | Every open among the commands waits in its place with its specification and reply. |
| `Terminals.Terms.HandleAll` | crates/mai-core/src/term.rs:268-280 | Commands are handled in order up to the first that ends the task. |
| `Terminals.Terms.Busy` | crates/mai-core/src/term.rs:268-280 | An await gives its outcome unless a command ended the task, after the effects of the commands before it. |
| `Terminals.Terms.Attach` | crates/mai-core/src/term.rs:283-319 | Attaching gives a new PTY with a fresh tag; it fails at once only when the connection is down, and otherwise exactly as the await does. |
| `Terminals.Terms.Connect` | crates/mai-core/src/term.rs:322-332 | A connect that succeeds brings the link up, sets its time and reports it; any other outcome leaves the link alone. |
| `Terminals.Terms.IdleIfEmpty` | crates/mai-core/src/term.rs:335-342 | With no terminal left, and only then, the connection is dropped, reported and the backoff reset. |
| `Terminals.Terms.OpenTerminal` | crates/mai-core/src/term.rs:345-400 | An open gives a terminal that was attached and heard nothing else yet, or fails with the reason for which some connect or attach during it failed; in both cases the link state is settled. |
| `Terminals.Terms.Prepare` | crates/mai-core/src/term.rs:346-375 | Before an attach for a new terminal the connection is up and every other terminal attached. |
| `Terminals.Terms.AttachNew` | crates/mai-core/src/term.rs:376-399 | The new terminal is inserted with its PTY; or the error of the attach is the answer, and the connection is dropped again if no terminal needs it. |
| `Terminals.Terms.DetachAll` | crates/mai-core/src/term.rs:405-411 | Every terminal loses its PTY and is sent exactly one detach with the reason; nothing else of it changes. |
| `Terminals.Terms.Lost` | crates/mai-core/src/term.rs:405-429 | All terminals detached; the retry is due after the next delay, counted afresh after a connection that was up for STABLE_AFTER. |
| `Terminals.Terms.Reconnect` | crates/mai-core/src/term.rs:432-490 | A failed connect leaves the link down with the next delay or until the user acts; a successful one ends with every terminal attached, or all detached because an attach failed, or idle because all were closed meanwhile. |
| `Terminals.Terms.ReattachAll` | crates/mai-core/src/term.rs:462-489 | Without a failure every terminal that still exists is attached again, whatever was closed or resized meanwhile. |
| `Terminals.Terms.Reattach` | crates/mai-core/src/term.rs:464-486 | The exact new state: after the commands handled meanwhile the terminal holds a PTY of the next generation with the size from before the wait, or the PTY is closed if the terminal is gone. |
| `Terminals.Terms.Settle` | crates/mai-core/src/term.rs:468-481 | A PTY that an attach returned is held by its terminal or sent a close. |
| `Terminals.Terms.ChannelEnded` | crates/mai-core/src/term.rs:495-537 | The third quick end in a row exits the terminal; otherwise it is told of the detach and attached again, or the connection is lost over that, with the exact new state. |
| `Terminals.Terms.ResumeOne` | crates/mai-core/src/term.rs:513-536 | Attaching one terminal again keeps all others attached, or the connection counts as lost because the attach failed. |
| `Terminals.Terms.FromForwarder` | crates/mai-core/src/term.rs:540-564 | Output and exits of the current attach reach its terminal, a live channel that ends reopens it, a dead transport detaches all; of any earlier attach nothing happens. |
| `Terminals.Terms.CloseAll` | crates/mai-core/src/term.rs:592-598 | Afterwards no PTY is open. |
| `Terminals.EveryPtyAccountedFor` | crates/mai-core/src/term.rs:240-263 | At a loop head a PTY is held by exactly one terminal if and only if it was neither closed nor dropped with its attach, and never both of these. |
| `Terminals.OutputIsFromLatestAttach` | crates/mai-core/src/term.rs:540-564 | Every output or exit in a terminal's stream is of the PTY of the latest attach, with nothing but its output in between. |
| `Terminals.StreamShape` | crates/mai-core/src/term.rs:91-104 | Nothing follows an exit, an attach follows only a detach, and the stream starts with an attach. |
| `Terminals.World.AfterAllKeeps` | crates/mai-core/src/term.rs:240-280 | Any commands handled inside an await keep every stream, PTY and tag law. |
| `Terminals.World.ClosedKeeps` | crates/mai-core/src/term.rs:254-260 | Closing a terminal accounts for its PTY. |
| `Terminals.World.LostKeeps` | crates/mai-core/src/term.rs:405-411 | Detaching keeps the laws, also when the terminal is already detached. |
| `Terminals.World.BoundKeeps` | crates/mai-core/src/term.rs:468-481 | Binding or closing the PTY of a finished attach keeps the laws, whether or not the terminal was closed meanwhile. |
| `Terminals.World.LostTells` | crates/mai-core/src/term.rs:405-411 | A detach ends the terminal's hold on its PTY and adds one event with the reason; no other terminal, stream or PTY changes. |
| `Terminals.World.EndedTells` | crates/mai-core/src/term.rs:505-510 | An exit removes the terminal, drops its PTY and adds the exit with its status to its stream; nothing else changes. |
| `Terminals.World.BoundTells` | crates/mai-core/src/term.rs:463-481 | The PTY of a finished attach is held under the new generation and announced, or is sent a close if the terminal is gone; nothing else changes. |
| `Terminals.World.TagNamesPty` | crates/mai-core/src/term.rs:540-546 | A forwarder whose id and generation match a terminal belongs to the PTY the terminal holds. |
| `Terminals.World.NextTagIsFresh` | crates/mai-core/src/term.rs:463-467 | No forwarder ever had the tag of the next attach. |
| `Terminals.World.SizesAgreeIff` | crates/mai-core/src/term.rs:247-253 | After a reattach a terminal and its PTY agree on the size if and only if the last resize handled meanwhile, if any, was to the size before. |
| `Terminals.ResizeDuringAttachIsLost` | crates/mai-core/src/term.rs:467-476 | A run in which they do not. |
| `DayLogs.CursorRoundTrip` | crates/mai-probe/src/spool.rs:46-52 | Splitting undoes packing if and only if the day is below 2^24 and the offset below 2^40. |
| `DayLogs.CursorOrder` | crates/mai-probe/src/spool.rs:46-52 | Cursors are ordered as (day, offset) pairs. |
| `DayLogs.HorizonIsReleased` | crates/mai-probe/src/spool.rs:131-134 | A day is readable exactly once it has been on for DAY_GRACE_MS. |
| `DayLogs.ResumeAt` | crates/mai-probe/src/spool.rs:125-155 | Reading on from any returned line gives exactly the lines after it. |
| `DayLogs.InOrder` | crates/mai-probe/src/spool.rs:125-155 | What a read returns is in strictly increasing cursor order. |
| `DayLogs.DrainKeeps` | crates/mai-probe/src/spool.rs:125-155 | A drain returns the rest of a single read from the first cursor. |
| `DayLogs.LandKeeps` | crates/mai-probe/src/spool.rs:91-100 | A record that lands within the grace period never disturbs what a reader has returned. |
| `Spools.DrainsEqualOneRead` | crates/mai-probe/src/spool.rs:91-155 | In any interleaving of timely appends and drains, the concatenated drains equal one read of the final files from the first cursor, in increasing order. |
| `Spools.EveryReleasedRecordOnce` | crates/mai-probe/src/spool.rs:91-155 | From an empty spool the drains return, day by day, exactly the records of every released day, each once, in the order they landed. |
| `Spools.WrittenIsRead` | crates/mai-probe/src/spool.rs:91-155 | A file written as whole lines is read back as those lines. |
| `Spools.LateRecordIsNeverRead` | crates/mai-probe/src/spool.rs:125-155 | A record that lands in a day before the cursor's is never returned, which is why the grace period is needed. |
| `Spools.Spool.Append` | crates/mai-probe/src/spool.rs:91-100 | The record's line is at the end of its day's file; nothing else changes. |
| `Spools.Spool.Days` | crates/mai-probe/src/spool.rs:103-119 | Exactly the days on disk, ascending. |
| `Spools.Spool.ReadFile` | crates/mai-probe/src/spool.rs:135-152 | One file's complete lines from an offset on, parsed or counted, with their cursors. |
| `Spools.EachLineParsed` | crates/mai-probe/src/spool.rs:138-151 | Every line that parses comes back in its place with its cursor, and every other line is counted. |
| `Spools.Spool.ReadAfter` | crates/mai-probe/src/spool.rs:125-155 | The loop over the files equals the read specification: records, bad lines and end cursor. |
| `Spools.Spool.Cleanup` | crates/mai-probe/src/spool.rs:178-188 | Exactly the files older than the kept days are deleted and counted. |
| `Spools.CleanupKeepsReads` | crates/mai-probe/src/spool.rs:178-188 | Cleaning up changes nothing for a reader whose day is kept. |
| `Trackers.Tracker.Apply` | crates/mai-core/src/tracker.rs:85-149 | The record and the alert after an event, for every source, age and state; `Authorities` says what they are after any history. |
| `Authorities.IgnoredHasNoEffect` | crates/mai-core/src/tracker.rs:101-123 | After any history, a redelivered or late hook, and a screen less than the authority period after the last hook that counted, changes neither records nor alerts, unless the screen shows Working while the agent waited for the user. |
| `Authorities.CountedMoves` | crates/mai-core/src/tracker.rs:124-149 | Any other event of another state leaves the agent with the event's name, state, message and time, unacknowledged exactly if it waits for the user, and raises that alert if and only if it does and its last alert was not of this state within the window; no other agent changes. |
| `Authorities.CountedStays` | crates/mai-core/src/tracker.rs:88-126 | An event of the state the agent is in raises nothing and changes only which hook was last; an unknown agent appears. |
| `Authorities.RemembersHook` | crates/mai-core/src/tracker.rs:101-114 | The hook time of a record is that of the last hook that counted. |
| `Authorities.JustAlertedIff` | crates/mai-core/src/tracker.rs:136-142 | A record silences an alert exactly when the agent's last alert was of the same state within the window. |
| `Trackers.Tracker.PaneGone` | crates/mai-core/src/tracker.rs:152-158 | The agent has exited and waits for nothing. |
| `Trackers.Tracker.Acknowledge` | crates/mai-core/src/tracker.rs:161-169 | Only the acknowledged flag of a known agent changes. |
| `Trackers.RemembersOffset` | crates/mai-core/src/tracker.rs:101-114 | After any history an agent remembers an offset at least as large as every spool event it was sent. |
| `Trackers.RedeliveryHasNoEffect` | crates/mai-core/src/tracker.rs:85-149 | Leaving out every redelivered spool event of any history changes neither the records nor the alerts. |
| `Trackers.OnlyAlertsWait` | crates/mai-core/src/tracker.rs:131-135 | After any history an unacknowledged agent is in an alerting state. |
| `Trackers.AlertsSpaced` | crates/mai-core/src/tracker.rs:136-148 | Two alerts in a row of one agent that report the same state are the de-duplication window apart. |
| `Pipelines.ProbeRunsTheProtocol` | crates/mai-probe/src/spool.rs:91-188 | However records land, the reader drains, the link delivers, fails and resumes from the stored acknowledgement, and old files are deleted, there is a run of the delivery protocol to the corresponding state: its log is what is visible, its cursor, acknowledgement and messages are the probe's. |
| `Pipelines.StepSimulated` | crates/mai-probe/src/serve.rs:143-228 | Every step of the probe over its files is some steps of the protocol. |
| `Pipelines.LinesAreHandedOver` | crates/mai-probe/src/serve.rs:173-228 | At every point of every run over the files, each visible line up to the stored acknowledgement that maps to an event was handed over, and without redeliveries what was handed over are the first visible lines' events without gaps. |
| `Pipelines.ReadsTheRest` | crates/mai-probe/src/spool.rs:125-155 | Reading the files that clean-up left gives exactly the visible lines after the cursor that were not deleted. |
| `Pipelines.VisibleGrows` | crates/mai-probe/src/spool.rs:91-155 | With timely records the visible lines only grow at their end. |
| `Deliveries.HandedOverInOrder` | crates/mai-core/src/host.rs:309-327 | At every point of every run with lost messages and reconnects: everything up to the stored acknowledgement was handed over, and without redeliveries that is the spool in cursor order without gaps. |
| `CatchUps.CatchesUp` | crates/mai-probe/src/serve.rs:173-228 | From every state that keeps the invariant, and so from every state the protocol reaches, one read of the spool and the receipt of what is on its way hand over every event of the spool, in order and without gaps. |
| `Deliveries.StepKeeps` | crates/mai-core/src/host.rs:309-327 | Every step keeps the invariant on in-flight messages, acknowledgements and what was handed over. |
| `Deliveries.DeliverKeeps` | crates/mai-core/src/host.rs:309-327 | Handing a message over before acknowledging it keeps acknowledgements behind what was handed over. |
| `Deliveries.TickKeeps` | crates/mai-probe/src/serve.rs:173-228 | Reading the spool and sending its events leaves no record behind the read cursor unsent. |
| `Deliveries.ReconnectKeeps` | crates/mai-probe/src/serve.rs:116-134 | Losing everything in flight and resuming from the stored acknowledgement, or from 0, skips no record. |
| `Deliveries.RedeliveryKeeps` | crates/mai-core/src/tracker.rs:101-114 | A record handed over again is one the history covers. |
| `Acknowledgements.StepKeepsAhead` | crates/mai-probe/src/serve.rs:395-401 | Unless the acknowledgement file is unreadable, stored acknowledgements grow and nothing on its way is at or before them. |
| `Acknowledgements.NotHandedOverAgain` | crates/mai-probe/src/serve.rs:173-228 | The event of an acknowledged record is not handed over again. |
| `Handovers.EffectOnce` | crates/mai-core/src/manager.rs:99-131 | At every point of every run redeliveries have no effect, and the spool events that have one are the spool in cursor order, from the first on without gaps, if and only if each event taken in time was taken after those of all earlier records. |
| `Handovers.NothingMissingUntilDropped` | crates/mai-core/src/manager.rs:115-131 | While nothing was dropped, acknowledged events have reached the tracker or are queued, and with the queue the spool is there in order without gaps. |
| `Handovers.EffectiveIff` | crates/mai-core/src/tracker.rs:101-114 | A spool event had an effect if and only if it was taken in time before every event that covers it. |
| `Histories.GapFreeIffComplete` | crates/mai-core/src/tracker.rs:85-149 | For any history of a host's spool events: those with an effect are the first records' events without gaps if and only if every event comes after those of all earlier records. |
| `Histories.ReceivedOnce` | crates/mai-core/src/tracker.rs:101-109 | Which of a host's events repeat does not depend on other hosts or other operations. |
| `Handovers.ActKeeps` | crates/mai-core/src/manager.rs:168-209 | Every step keeps: what was handed over was applied, dropped, or is queued. |
| `Handovers.NothingDroppedIff` | crates/mai-core/src/manager.rs:99-121 | Nothing was dropped if and only if every event was taken before its incarnation's `Removed` was heard. |
| `Handovers.AppliedIffTakenInTime` | crates/mai-core/src/manager.rs:99-131 | A spool event has reached the tracker if and only if it was taken in that time. |
| `Handovers.AcknowledgedLostIff` | crates/mai-core/src/host.rs:317-327 | An acknowledged event that is no longer queued has had no effect if and only if it was taken, every time, after its incarnation's `Removed` was heard or after a later event of the same agent was applied; and it was taken at least once. |
| `Handovers.RemovalLosesAcknowledgedEvent` | crates/mai-core/src/manager.rs:201-209 | A run in which removing the host loses an acknowledged event. |
| `Handovers.ReaddedHostCatchesUp` | crates/mai-core/src/manager.rs:168-209 | A run in which an event is dropped by a removal and arrives after the host is added again. |
| `Handovers.LateEventIsIgnored` | crates/mai-core/src/tracker.rs:101-109 | A run in which an acknowledged event arrives but is ignored, because a later one of the same agent came first. |
| `Handovers.LostForGood` | crates/mai-probe/src/serve.rs:116-134 | Such an event is never handed over again, by no reconnect and no later incarnation, unless the acknowledgement file becomes unreadable. |
| `Panes.NeverBoundAndHeld` | crates/mai-probe/src/serve.rs:192-215 | After any history no pane is both bound and on exit hold. |
| `Panes.QuietAfterExit` | crates/mai-probe/src/serve.rs:354-362 | After an exit reported by a hook, scraping says nothing about the pane until a non-exit hook, a dump that identifies nothing, or a poll without the pane. |
| `Panes.ExitAfterTwoMisses` | crates/mai-probe/src/serve.rs:335-353 | A scraped exit is of an agent that scraping had bound, after two successful dumps in a row that match none of its rules. |
| `Panes.ExitReportedOnce` | crates/mai-probe/src/serve.rs:335-353 | Between two scraped exits of a pane it was bound again. |
| `Bindings.HookBoundIff` | crates/mai-probe/src/serve.rs:192-215 | A hook binds a pane to its agent exactly from a record that is no exit to the next record, or until a poll without the pane. |
| `Bindings.HeldIff` | crates/mai-probe/src/serve.rs:198-215 | A pane is held exactly from a hook's exit to the first non-exit record, dump that identifies nothing, or poll without the pane. |
| `Bindings.ScrapeBoundIff` | crates/mai-probe/src/serve.rs:333-371 | Scraping binds a pane exactly from a dump that names an agent while nothing binds or holds the pane, until a hook speaks, the pane is gone, or two dumps in a row miss the agent. |
| `Bindings.HookBoundSays` | crates/mai-probe/src/serve.rs:333-374 | A dump of a pane that a hook bound says exactly what its screen shows of that agent, whatever the rules identify. |
| `Bindings.ScrapeBoundSays` | crates/mai-probe/src/serve.rs:335-374 | A dump of a pane that scraping bound says what it shows of the agent, nothing at the first miss, the exit at the second in a row. |
| `Bindings.UnboundSays` | crates/mai-probe/src/serve.rs:354-374 | A dump of an unbound pane says nothing if it identifies nothing or the pane is held; else that the agent is new, then what it shows of it. |
| `Servers.PollAgrees` | crates/mai-probe/src/serve.rs:230-300 | Whatever zellij answers, the changes of a poll bring a view that agreed, or any view after a fresh start, to agree with the server again, given distinct live names. |
| `Polls.PollHolds` | crates/mai-probe/src/serve.rs:244-299 | After a poll with distinct live names the lists are: the answer for a live session that gave one, the list known before for one whose listing failed, and nothing for any other session. |
| `Polls.PollTells` | crates/mai-probe/src/serve.rs:240-273 | A poll sends the session list if it changed; then in session order, once each, exactly the lists that changed and the listings that failed while they were not failing before. |
| `Polls.PollRemembers` | crates/mai-probe/src/serve.rs:230-298 | After a poll exactly these failures are remembered: the listings of live sessions that failed just now, and earlier failed dumps of panes still listed. |
| `Servers.DuplicateNamesMislead` | crates/mai-probe/src/serve.rs:244-273 | For every session list with two live sessions of one name there are answers after which the view is wrong. |
| `Servers.Server.Tick` | crates/mai-probe/src/serve.rs:143-171 | Each pane takes its hook, poll and scrape steps, scraping tells the app exactly what each pane's history calls for, hook events come through in order, and the view stays in agreement. |
| `Servers.Server.DrainSpool` | crates/mai-probe/src/serve.rs:173-228 | Every record binds or holds its pane in order and every mapped one is sent with its cursor. |
| `Servers.Server.Relay` | crates/mai-probe/src/serve.rs:192-227 | One record: its pane's step, and its event with agent, state and cursor if it maps to a state. |
| `Servers.EachRecordSent` | crates/mai-probe/src/serve.rs:216-226 | Every record that maps to a state is sent in its place, as a hook event of its pane and agent with its cursor; no other record is. |
| `Servers.EachRecordIsAStep` | crates/mai-probe/src/serve.rs:192-215 | Every record is one step of its own pane, in its place, and an exit exactly if it maps to one. |
| `Servers.Server.ScrapePanes` | crates/mai-probe/src/serve.rs:302-377 | Every listed pane that has not exited is scraped, and nothing but what its history calls for is sent. |
| `Servers.EachPaneScraped` | crates/mai-probe/src/serve.rs:314-322 | Every pane listed as not exited is scraped in its place. |
| `Servers.Server.ScrapePane` | crates/mai-probe/src/serve.rs:317-376 | One dump: the pane's step, its events, and a failure that is reported only when it starts. |
| `Servers.Server.Look` | crates/mai-probe/src/serve.rs:332-374 | What one screen does to a pane's binding, hold and misses, and what is said about it. |
| `Servers.Server.PollPanes` | crates/mai-probe/src/serve.rs:230-300 | The new sessions, pane lists, messages and remembered failures of a poll, which `Polls` spells out session by session; every pane hears whether it still exists; a failed session list changes nothing but that. |
| `Servers.Server.ListPanes` | crates/mai-probe/src/serve.rs:245-273 | The loop over live sessions equals the specification that `Servers.PollAgrees` and `Polls` are about. |
| `Servers.Server.Forget` | crates/mai-probe/src/serve.rs:289-290 | Bindings and holds remain exactly for the panes that are still listed. |
| `Monitors.Monitor.Apply` | crates/mai-core/src/monitor.rs:125-198 | A consumer that keeps the last record per agent shows exactly the tracked agents after every event; the view, the agents and the updates are those of the event, and an agent that a list ended is reported once. |
| `Monitors.Monitor.Follow` | crates/mai-core/src/monitor.rs:79-223 | The same over any mix of events, losses and acknowledgements from the start. |
| `Monitors.Monitor.AgentEvent` | crates/mai-core/src/monitor.rs:176-192 | The record is sent exactly when it is new or its state or acknowledgement changed, then the alert. |
| `Monitors.Monitor.AgentsGone` | crates/mai-core/src/monitor.rs:201-223 | Exactly the host's running agents, of the session if one is given, whose pane is not live have exited and are acknowledged; each is reported once, nothing else changes. |
| `Monitors.TrackedMeans` | crates/mai-core/src/monitor.rs:144-223 | No event of a host touches an agent of another. A session list ends exactly the host's running agents whose session is not live in it, a pane list those of its session whose pane is not; an agent event changes only its own agent. |
| `Monitors.ChangedMeans` | crates/mai-core/src/monitor.rs:127-175 | The view after an event: the connection reported, the listed sessions with the pane lists of the live ones, or one pane list; everything else stays. |
| `Monitors.EventUpdatesIff` | crates/mai-core/src/monitor.rs:176-192 | An agent event sends the record exactly if the agent, its state or its acknowledgement is new, then the alert exactly if one is raised, and nothing else. |
| `Monitors.Monitor.Acknowledge` | crates/mai-core/src/monitor.rs:101-106 | The acknowledgement reaches the tracker and, if it changed anything, the consumer. |
| `Monitors.VisibleChange` | crates/mai-core/src/monitor.rs:176-192 | Nothing visible of an agent changes unless its state or acknowledgement does. |
| `Monitors.EventKeepsSync` | crates/mai-core/src/monitor.rs:176-192 | Sending only those records keeps the consumer in step. |
| `Managers.AppliedIffCurrentAtPoll` | crates/mai-core/src/manager.rs:99-131 | An event is applied if and only if its incarnation was current at the select's last poll of the control channel, and dropped otherwise. |
| `Managers.CurrentDroppedIffAddedBetweenPolls` | crates/mai-core/src/manager.rs:84-140 | An event of the current incarnation is dropped if and only if the host was added between the select's two polls. |
| `Managers.StaleAppliedIffRemovedBetweenPolls` | crates/mai-core/src/manager.rs:84-140 | An event of a removed or earlier incarnation is applied if and only if that incarnation was removed, and not also added, between the select's two polls. |
| `Managers.QuietManagerFiltersExactly` | crates/mai-core/src/manager.rs:84-140 | When the manager does not act between the two polls, exactly the current incarnations' events are applied. |
| `Managers.LaterEventFindsAdded` | crates/mai-core/src/manager.rs:97-118 | When the monitor takes a second event of an incarnation it has heard that it was added. |
| `Managers.AddBetweenPollsDropsFirstEvent` | crates/mai-core/src/manager.rs:168-198 | A run in which a host added between the two polls loses its first event. |
| `Managers.RemoveBetweenPollsAppliesStaleEvent` | crates/mai-core/src/manager.rs:201-209 | A run in which an event of a host removed between the two polls is applied. |
| `Managers.StepKeeps` | crates/mai-core/src/manager.rs:168-209 | Every step keeps: replaying the unheard control messages gives the manager's hosts, and unheard generations are newer than heard ones. |
| `Managers.RunKeeps` | crates/mai-core/src/manager.rs:84-209 | That holds at every point of every run. |
| `HopStates.PromptsAreNotCutShort` | crates/mai-core/src/ssh/client.rs:344-373 | In every interleaving the timer never gives up during a prompt, and a key is learned only while the handler owns the phase. |
| `HopStates.NothingAfterGivingUp` | crates/mai-core/src/ssh/client.rs:209-245 | After the timer gave up no prompt opens and no key is learned. |
| `HopStates.FullPeriodIffCountedBeforeCheck` | crates/mai-core/src/ssh/client.rs:344-373 | When the timer gives up, a prompt has had a full period since it was counted if and only if it was counted before the timer's last check. |
| `HopStates.WasChecked` | crates/mai-core/src/ssh/client.rs:354-364 | There always is such a last check. |
| `HopStates.GivesUpRightAfterPrompt` | crates/mai-core/src/ssh/client.rs:354-364 | A run in which a prompt has not had its full period. |
| `HopStates.RunKeeps` | crates/mai-core/src/ssh/client.rs:131-144 | The handler owns the phase exactly while it is busy, the timer exactly once it gave up. |
| `Swaps.BinFiles.SwapIn` | crates/mai-core/src/swap.rs:22-57 | For every pattern of failures: success leaves the new bytes at the target, an error the old ones there, or under the aside name if restoring failed too; every moment in between is safe; success exactly when the upload exists and none of the operations that matter fails. |
| `Swaps.BinFiles.ClearLeftovers` | crates/mai-core/src/swap.rs:27-31 | Only old binaries are removed, and all listed ones when nothing fails. |
| `Swaps.BinFiles.MoveAside` | crates/mai-core/src/swap.rs:32-40 | The old binary is under an old name, or nothing has happened to it. |
| `Swaps.BinFiles.Place` | crates/mai-core/src/swap.rs:41-56 | The new binary is in place and, unless the last removal fails, no old one was left behind; or the old one is back or reported aside. |
| `Swaps.SomeBinaryLeft` | crates/mai-core/src/swap.rs:22-57 | At every safe moment the old binary or the new one in place is complete, and the new bytes are never lost. |
| `Swaps.NotOld` | crates/mai-core/src/swap.rs:23-25 | Neither the target nor the upload is ever taken for a leftover. |
| `Hosts.Host.Run` | crates/mai-core/src/host.rs:342-401 | For every script the log is readable, each open came to what it came to, the messages sent are exactly those delivered while a connection was served, in order, and the loop ends only when told to stop, waiting for the user, or still serving. |
| `Hosts.Host.Attempt` | crates/mai-core/src/host.rs:345-400 | One pass keeps the loop-head invariant: an open is due and the backoff matches the delays since the last reset. The commands taken and the answers to their messages are those of every stage it reaches, in order. |
| `Hosts.Host.IdleCommand` | crates/mai-core/src/host.rs:262-271 | Without a probe a message is reported dropped, a retry wakes, a stop or a closed channel stops. |
| `Hosts.Host.Busy` | crates/mai-core/src/host.rs:275-287 | Every command up to the first stop is taken in order and every message refused, a retry only counts as heard; false if and only if one of them is a stop or the channel closes. |
| `Hosts.Host.Wait` | crates/mai-core/src/host.rs:290-304 | Takes the commands that arrive in time, up to the first retry or stop; returns no earlier than the delay unless a retry came, and without a delay only for a retry. |
| `Hosts.Host.Serve` | crates/mai-core/src/host.rs:309-340 | Every command up to the first input that fails the link or stops the task is taken in order, each message sent, or reported dropped if it was not delivered; it ends as lost or stopped by which of the two came, and otherwise keeps serving. |
| `Hosts.EachCommandRelayed` | crates/mai-core/src/host.rs:329-337 | Each command of a served connection is taken in its place and its message sent at once, or dropped exactly if the link did not deliver it. |
| `Hosts.EachCommandRefused` | crates/mai-core/src/host.rs:262-271 | Each command without a probe is taken in its place and its message dropped at once. |
| `Hosts.SentIsDelivered` | crates/mai-core/src/host.rs:329-337 | What a served connection sends are the messages the link delivers, in order. |
| `Hosts.LosesLinkIff` | crates/mai-core/src/host.rs:309-340 | A served connection loses its link if and only if an input fails it before any command to stop. |
| `Hosts.Host.BackOff` | crates/mai-core/src/host.rs:395-399 | The next delay is announced and waited for. |
| `Hosts.Host.AwaitUser` | crates/mai-core/src/host.rs:351-358 | A problem waits for a retry; it resets the backoff unless it is a protocol mismatch. |
| `Hosts.Host.ServeUp` | crates/mai-core/src/host.rs:377-392 | The same after the connection is reported up; one that was up for STABLE_AFTER resets the backoff when it is lost. |
| `Hosts.KthDelay` | crates/mai-core/src/host.rs:187-216 | In every run the k-th delay since the last reset is min(2^k, 60) seconds. |
| `Hosts.OpenNotBefore` | crates/mai-core/src/host.rs:342-401 | Without a retry and a stable connection the n-th open never starts before the sum of the first n - 1 delays. |
| `Hosts.NoAutomaticOpen` | crates/mai-core/src/host.rs:351-374 | A problem that needs the user is followed by an open only after a retry. |
| `Hosts.OpenAfterDelay` | crates/mai-core/src/host.rs:395-399 | The open after a failure waits for its delay or a retry. |
| `Hosts.EachSendAnswered` | crates/mai-core/src/host.rs:262-340 | Every message taken is at once sent or reported dropped, and nothing else ever is. |
| `Installs.StripOurs` | crates/mai-probe/src/install.rs:107-116 | The loop equals the specification the laws below are about. |
| `Installs.MergeHooks` | crates/mai-probe/src/install.rs:129-149 | The merged document and result, with the edits made before a failure kept. |
| `Installs.RemoveHooks` | crates/mai-probe/src/install.rs:152-169 | The document and result of removal, error cases included. |
| `Installs.MergeIdempotentIff` | crates/mai-probe/src/install.rs:128-149 | A merge that succeeded changes nothing the second time if and only if its command contains the marker. |
| `Installs.MergeInstalls` | crates/mai-probe/src/install.rs:129-149 | Afterwards every listed event holds exactly one hook of ours, after the user's groups, as a group with the command and, if the event's last entry asks for one, the matcher; other events are untouched. |
| `Installs.MatcherIsLast` | crates/mai-probe/src/install.rs:134-146 | That entry is the last one for the event. |
| `Installs.MergeErrorIff` | crates/mai-probe/src/install.rs:118-140 | The merge fails if and only if the document or its `hooks` is no object or a listed event is no list, with the error for it. |
| `Installs.FailedMergeIsPartial` | crates/mai-probe/src/install.rs:134-140 | A merge that fails at an event has made the edits for the events before it and no other. |
| `Installs.RemoveErrorIff` | crates/mai-probe/src/install.rs:152-160 | Removal fails if and only if the document or its `hooks` is no object, and then changes nothing. |
| `Installs.IsOursIff` | crates/mai-probe/src/install.rs:98-102 | A hook is ours if and only if its command contains the probe's path. |
| `Installs.FilteredAt` | crates/mai-probe/src/install.rs:107-116 | Every hook that is not ours stays in its place in its group. |
| `Installs.MergedOkIff` | crates/mai-probe/src/install.rs:134-140 | The merge of a table succeeds if and only if every listed event is a list or missing. |
| `Installs.UserHooksKept` | crates/mai-probe/src/install.rs:104-169 | Merging and removing keep every hook and group of the user's, in order, under its event and with its group's other fields. |
| `Installs.EventsKeptIff` | crates/mai-probe/src/install.rs:161-168 | Removal drops exactly the events that are lists in which the user has nothing. |
| `Installs.OtherKeysKept` | crates/mai-probe/src/install.rs:118-169 | No other key of the document changes. |
| `Installs.RemoveUndoesMerge` | crates/mai-probe/src/install.rs:129-169 | Removing after a merge gives what removing alone gives, if and only if `hooks` existed; otherwise an empty `hooks` stays. |
| `Installs.RemoveSettles` | crates/mai-probe/src/install.rs:151-169 | Removal leaves no hook of ours, is idempotent, and changes a document if and only if it has a hook of ours or an empty event list. |
| `Installs.UninstallRestoresIff` | crates/mai-probe/src/install.rs:129-169 | Uninstalling after installing restores a document with `hooks` if and only if it had no hook of ours and no empty event list. |
| `Installs.StrippedSameIff` | crates/mai-probe/src/install.rs:98-116 | Stripping changes a list if and only if it holds a hook of ours. |
| `Quoting.PosixRoundTrip` | crates/mai-core/src/deploy.rs:81-118 | For every path and arguments, a POSIX shell splits the command line into exactly path and arguments (sections 2.2.1, 2.2.2 and 2.3 of the Shell Command Language, POSIX.1-2017). |
| `Quoting.ArgsRoundTrip` | crates/mai-core/src/deploy.rs:100-118 | The same for the joined arguments alone. |
| `Quoting.ReadsShQuote` | crates/mai-core/src/deploy.rs:142-144 | A quoted word is read as itself, whatever follows. |
| `PowerShells.PowerShellRoundTripIff` | crates/mai-core/src/deploy.rs:81-118 | PowerShell calls exactly path with the arguments if and only if no word holds a typographic single quote. |
| `PowerShells.ArgsRoundTripIff` | crates/mai-core/src/deploy.rs:100-118 | The same for the joined arguments alone. |
| `PowerShells.TypographicPathMisread` | crates/mai-core/src/deploy.rs:81-87 | A path for which the call fails. |
| `HostKeys.GlobIff` | crates/mai-core/src/ssh/hostkey.rs:51-58 | A glob accepts exactly the texts obtained by replacing each `*` by a run and each `?` by one character. |
| `HostKeys.HostMatches` | crates/mai-core/src/ssh/hostkey.rs:70-92 | The loop with its early return accepts exactly if a plain pattern matches and a negated one does not. |
| `HostKeys.AppliesIff` | crates/mai-core/src/ssh/hostkey.rs:70-92 | A list applies to a name if and only if some pattern without `!` fits it and none with `!` does, where a pattern is read without its `!` and in small ASCII letters. |
| `HostKeys.MatchesIff` | crates/mai-core/src/ssh/hostkey.rs:76-81 | A pattern matches exactly the names that fit it. |
| `HostKeys.OrderIndependent` | crates/mai-core/src/ssh/hostkey.rs:70-92 | Reordering the patterns changes nothing. |
| `HostKeys.Scan` | crates/mai-core/src/ssh/hostkey.rs:102-130 | Whether some line records the key, and the first lines that differ from it or revoke it. |
| `HostKeys.Check` | crates/mai-core/src/ssh/hostkey.rs:135-168 | The answer and the file and line it names, with the code's precedence. |
| `HostKeys.AnswerIsUnique` | crates/mai-core/src/ssh/hostkey.rs:135-168 | That specification leaves no choice. |
| `HostKeys.KnownIff` | crates/mai-core/src/ssh/hostkey.rs:132-168 | Known exactly when every existing file is readable, none revokes the key or holds another of its algorithm for the host, and some file records it; Unknown when only the last fails. |
| `HostKeys.RefusalStands` | crates/mai-core/src/ssh/hostkey.rs:132-134 | A refusal stands whatever files are added, wherever. |
| `StderrTails.StderrTail.Push` | crates/mai-core/src/stderr.rs:27-37 | The new text is the tail of old text and chunk. |
| `StderrTails.StderrTail.Collect` | crates/mai-core/src/stderr.rs:63-72 | After all reads the text is the longest fitting suffix of everything. |
| `StderrTails.TailIsLongest` | crates/mai-core/src/stderr.rs:25-37 | The tail is the longest suffix that starts a character and fits, and nothing else is. |
| `StderrTails.TailOfTail` | crates/mai-core/src/stderr.rs:27-37 | Cutting early never changes a later cut. |
| `StderrTails.ChunkingIsImmaterial` | crates/mai-core/src/stderr.rs:27-37 | Any chunking of the same text keeps the same tail. |

## Left out

- SSH transport, authentication, agents, keychain, SFTP and signatures; process, stream and clock
  plumbing; the zellij and metrics commands; the app shell and user interface.
- JSON and TOML encoding, regular expressions, hook mapping tables, scrape history, known_hosts line
  parsing, SHA-256 and HMAC are parameters or absent.
- `attach_argv`, `check_session` and the zellij path of a terminal: strings passed through.
- The order in which a map of terminals, sessions or files is walked is arbitrary here; the laws hold
  for every order.
- Terminals: channels whose receiver is gone; sending to one has no effect.
- Spool: errors of the file system while reading, two file names that parse to the same day, overflow
  of day times DAY_MS, and the text of the acknowledgement file.
- Probe server: running without zellij, metrics, heartbeats, the schedule of polls and scrapes, the
  text and time of agent events, and the messages for bad or unreadable spool lines.
- Tracker: sorting of the pending list.
- Monitor: the summary state of a host, heartbeats that change nothing, and forgetting a removed host.
- Host task: the texts of errors, and the hello, hooks, notes and probe messages it passes on; their
  order of acknowledgement is in `Deliveries`.
- Handovers.EffectOnce: assumes one live server and that only files of received records are cleaned
  up, because the repository keeps spool files for days and runs one server per client.
- Managers: tasks that are aborted when the manager itself is dropped.
- Swap: an operation that takes effect and still reports failure.
- Install: reading, backing up and writing the settings file, and symbolic links.
- Quoting: the `cmd` form, which escapes nothing by design, and how Windows PowerShell rebuilds a
  native command line from the arguments it parsed.
- Host keys: `host_name`, `fingerprint` and `learn`.
- Stderr: lossy decoding, of which only that each decoded chunk starts a character is used, and the
  summary lines.
