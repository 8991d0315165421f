# App launching in the icon manager: a verified model

The icon manager lets a Linux host start Android applications. A daemon on the host owns a fixed
pool of LG slots, in each of which one application can be shown. A launcher process connects to the
daemon, asks whether the application already runs (CHECK), asks for an idle slot (GET_IDLE),
announces which application it shows in it (SET_BUNDLE), starts the viewer, and reports when the
application is closed (CLOSED). Another launcher can ask for an application to be closed by name:
the request goes through the daemon's global queue to the session that carries the slot, which tells
its launcher APP_DIED, and that launcher reports the close. Messages are texts in frames of 512 bytes.

This project models these programs in Dafny and proves what they promise. The modules, by part:

- Launch protocol: `Slots`, `Events`, `VatSession` (a session of the daemon), `LGLauncher` (the
  launcher), `Daemon` (the session map and the loop over global events), `Protocol` (all of it as a
  transition system), `ProtocolInvariant`, `ProtocolSafety`, `ProtocolTheorems`, `ProtocolTable`,
  `ProtocolCheck`, `ProtocolResult`, `ProtocolProgress`, `ProtocolRecovery`, `ProtocolCalm`, `ProtocolClose`,
  `ProtocolLaunches`, `ProtocolExact`, and `SingleMode` for the build with one slot. `DaemonSteps` shows
  that the classes take the steps of `Protocol`.
- Messages: `Text`, `Numerals`, `Codec`, `Message`, `Wire`, `WireExact`.
- The protocol on texts: `ProtocolText`, `ProtocolMisread`.
- Transport and queues: `Framing`, `EventQueues`.
- Beside the protocol: `HostSettings`, `StackLists`, `Menu`.

Objects that the programs update in place are classes whose methods are proved against functions on
values (`Handle`, `React`, `Next`, `Run`, ...); the theorems are about these functions.

Slot numbers travel in texts beside the names of applications, and for some names the receiver reads
another number than was sent: a launch of activity `lg_instance_id:-1` makes the daemon write below its
table. So the protocol has a `Reader` as parameter, which says what a receiver makes of a message;
queues hold messages as they were sent, handlers read them. A reader is *sound* when it keeps the type
of every message and reads messages without names as they were sent; the reading of texts is
(`ProtocolText.TextsAreSound`). What is promised depends on the names like this:

- With any names, for every sound reader: the invariant, mutual exclusion, that a grant is freed once,
  that a launcher closes its own slot, the order and number of messages, that there is no livelock, when
  a slot can be freed again and what is lost at rest (`ProtocolSafety`, `ProtocolTheorems`,
  `ProtocolProgress`, `ProtocolRecovery`, `ProtocolCalm`).
- The life cycle and the count of slots, and that no session indexes the table below its start, depend
  on the slot numbers that sessions read from bundles (`ProtocolTable`). The conditions, one for each,
  are exact: there is a run that breaks the promise whenever the names that are launched do not meet
  them (`ProtocolExact` for every sound reader and all names, `ProtocolMisread` for texts, spelled out
  for names without `,` and `;`). Names in requests to close are under no condition there.
- Connections have *fitting* names when every message they can cause is read as sent, a condition on
  the names and the number of slots (`ConnectFits`), exact for launches too. Their runs on texts are
  those in which nothing is misread (`ProtocolText.TextRunsAreRuns`), and all promises hold of them.

Assumptions of the protocol model:

- Each handler, and each call that puts an event into a queue or takes one out, is one step. The
  daemon takes no lock on the slot table that its sessions share; the model does not show what
  handlers running at the same moment would do to each other.
- The number of slots is arbitrary; the program is built with 4.
- A step is a connect, a message moved from a socket into a queue, a handled event, a move of the
  viewer thread, a failed read, a session leaving the map, a wake-up without an event or a crash of a
  launcher, in any order. `killApp` tests `running`, sends and only then clears `running`, in
  separate steps, so that a close can be sent twice. A session that is stopped by a failed read while
  it waits for an event may still handle one.
- The session map is ordered by file descriptor. The model lets a global close reach any session on
  the map that carries the slot, which covers every order; no descriptor on the map is reused.
- `owner`, `grants`, `closes`, `fault`, `sent`, `handled` and `granted` only record the past; no
  handler reads them.
- `Wire` reads every field a message has; the handler of CHECK reads the activity only, and that of
  GET_IDLE no field at all. A message of which a field cannot be read stays at the head of its queue:
  what the code then makes of its local buffers is not modelled.
- A message that has reached the daemon's socket can be read. The daemon registers its sockets
  edge-triggered (host/src/pghost/vatclidaemon.cpp:316) and reads one frame for each notification
  (host/src/pghost/vatclidaemon.cpp:340), so that a frame which arrives together with another one stays
  unread until more data or the end of the connection is notified. `ProtocolRecovery.FreedAgainExactly`,
  `ProtocolCalm.EverySlotIsFreed` and `ProtocolCalm.NothingIsLost` count such a frame as deliverable.
- Names do not contain NUL, being C strings. `atoi` is that of the GNU library also for numbers of more than
  32 bits, where C leaves the result open.

Where the code differs from what it seems to intend, the model follows the code: the slot number of
SET_BUNDLE is written with `:` and asked for with `=`, which works because the character is skipped;
the calls that should clear the names of a slot in single-slot mode have two arguments swapped and
clear nothing; NOT_AVAILABLE falls through to the handler of a closed connection, which sets the same
fields; a parse of the stack list that is resumed but cannot be started again still reports success;
no more than the upper bound of a received slot number is checked.

## Model

| member | source | states |
|---|---|---|
| Slots.First | host/src/pghost/vatclient.cpp:307-318 | the scan over the table yields the lowest matching slot, or -1 and none matches |
| VatSession.VatClient.FindFirst | host/src/pghost/vatclient.cpp:349-360 | the loop computes that scan |
| VatSession.VatClient.CheckIfLaunched | host/src/pghost/vatclient.cpp:299-348 | one loop that looks for the activity and any idle slot gives the answer of the specification: fields, table, reply |
| VatSession.VatClient.GetIdleSlot | host/src/pghost/vatclient.cpp:349-373 | the lowest idle slot is reserved and reported, or the refusal |
| VatSession.VatClient.CloseByAppname | host/src/pghost/vatclient.cpp:401-432 | the requester is told only when a used slot matches; the global event carries the slot or -1; the session stops |
| VatSession.VatClient.HandleEvent | host/src/pghost/vatclient.cpp:278-451 | every event's whole effect on session, shared table, replies and global queue |
| VatSession.VatClient.RunLoop | host/src/pghost/vatclient.cpp:258-275 | a thread that no other disturbs handles its events in order and none after the one that clears `running` |
| VatSession.CheckIsExact | host/src/pghost/vatclient.cpp:299-348 | CHECK answers i exactly when i is the lowest used slot with the activity, -1 exactly when none has it and one is idle, NOT_AVAILABLE, and then it stops, exactly when neither; the table is unchanged, and the session carries the slot found |
| VatSession.GetIdleIsExact | host/src/pghost/vatclient.cpp:349-373 | NOT_AVAILABLE exactly when no slot is idle; otherwise the lowest idle slot, and no other, becomes reserved |
| VatSession.CloseIsExact | host/src/pghost/vatclient.cpp:401-432 | a close by name sends slot i to the global queue, and tells the requester, exactly when i is the lowest used slot whose application name contains the name; it sends -1 and tells nobody exactly when there is none; the table is unchanged and the session stops |
| VatSession.UpdatesAreExact | host/src/pghost/vatclient.cpp:374-445 | SET_BUNDLE fills, and CLOSED empties, the slot with the number and no other; numbers outside the table change nothing in it |
| VatSession.OthersAreIgnored | host/src/pghost/vatclient.cpp:446-451 | no other event changes or sends anything |
| ProtocolCheck.AsksOnlyIfLaunchable | host/src/pghost/lgclient.cpp:254-284 | in every run a launcher asks for a slot only if, when its CHECK was handled, no used slot ran the activity that its session read and some slot was idle |
| LGLauncher.LGClient.Open | host/src/pghost/lgclient.cpp:199-242 | the opening message of a launch and of the two close requests |
| LGLauncher.LGClient.HandleEvent | host/src/pghost/lgclient.cpp:246-353 | what each event does to the launcher and what it sends |
| LGLauncher.LGClient.MainLoop | host/src/pghost/lgclient.cpp:379-408 | a main loop that the viewer thread does not disturb handles its events in order while `running` is set |
| LGLauncher.LoopOutcome | host/src/pghost/lgclient.cpp:246-408 | over every sequence of events the loop stops at the first final one, with result -1 exactly on a refusal, a closed connection or "no application opened", and with the names of the application opened last exactly when told them |
| LGLauncher.AnswersExactly | host/src/pghost/lgclient.cpp:246-353 | a launcher answers exactly three things: "not running, a slot is idle", the grant of a slot of the table, and the death of its application |
| ProtocolResult.ResultExactly | host/src/pghost/lgclient.cpp:273-281 | in every run, whatever the names, a launch that has stopped has result -1 if and only if its session answered that no slot is available, and every other launcher has 0; one that asks for a close by name stops only when told that it was passed on |
| ProtocolTheorems.KillAppClosesOnce | host/src/pghost/lgclient.cpp:147-164 | in every run, when the application has exited `killApp` reports the close of the granted slot if and only if no close has been sent yet |
| Daemon.VatCliDaemon.constructor | host/src/pghost/vatclidaemon.cpp:191-200 | all slots start idle, without names |
| Daemon.VatCliDaemon.Accept | host/src/pghost/vatclidaemon.cpp:325-332 | a new session joins the map with slot -1; an entry that is already there is kept |
| Daemon.VatCliDaemon.Readable | host/src/pghost/vatclidaemon.cpp:337-349 | a failed read stops the session, a stopped session leaves the map, all others stay as they are |
| Daemon.VatCliDaemon.HandleGlobal | host/src/pghost/vatclidaemon.cpp:105-139 | exactly the session with the lowest descriptor that carries the slot is told APP_DIED |
| DaemonSteps.SessionLoop | host/src/pghost/vatclient.cpp:258-275 | the loop of a session over messages that it can read is a run of its steps in the protocol, between which others may come |
| DaemonSteps.ClientLoop | host/src/pghost/lgclient.cpp:379-408 | the main loop of a launcher likewise |
| DaemonSteps.ViewerEnds | host/src/pghost/lgclient.cpp:187-197 | the viewer thread of the class after the application has exited (`killApp`, then `running` cleared) is two or three viewer steps of the protocol with the same message sent |
| DaemonSteps.HandleNext | host/src/pghost/vatclient.cpp:278-451 | a session of the daemon in memory handling its next event, as it reads it, is the session step of the protocol |
| DaemonSteps.TakeGlobal | host/src/pghost/vatclidaemon.cpp:142-154 | the daemon in memory taking a global event, as it reads it, is a global step that is enabled |
| DaemonSteps.Connects | host/src/pghost/vatclidaemon.cpp:325-332 | a new connection in memory is the connect step |
| DaemonSteps.Reads | host/src/pghost/vatclidaemon.cpp:337-349 | a read event in memory is the delivery of a message, a failed read, a release, or two of these |
| ProtocolInvariant.LocalMoveInv | host/src/pghost/lgclient.cpp:246-353 | every move of one connection keeps the phase invariant that ties channels, launcher, viewer and session, for any names and any sound reader |
| ProtocolSafety.StepInv | host/src/pghost/vatclient.cpp:278-451 | every step keeps the invariant over table, channels, sessions and launchers, whatever the names and however they are read |
| ProtocolSafety.ReachableInv | host/src/pghost/vatclidaemon.cpp:191-200 | every state of every run of a daemon with any number of slots satisfies it |
| ProtocolTheorems.MutualExclusion | host/src/pghost/vatclient.cpp:349-445 | in every run, whatever the names, two launchers that hold a slot hold different ones, and a held slot is not idle |
| ProtocolTheorems.ClosedForGood | host/src/pghost/vatclient.cpp:434-445 | after its first close a session handles nothing more, however many closes follow |
| ProtocolTheorems.FreedOncePerGrant | host/src/pghost/lgclient.cpp:147-164 | whatever the names, a second close never frees a slot, whoever holds it by then: two freeing steps come from different sessions, each freeing its own grant |
| ProtocolTheorems.AppDiedFindsOwnGrant | host/src/pghost/lgclient.cpp:300-317 | a launcher that handles APP_DIED already carries its granted slot and answers with a close of it |
| ProtocolTheorems.LeftoverNamesAreDead | host/src/pghost/vatclient.cpp:440-443 | names left in slots that are not used change no later step of any run |
| ProtocolTheorems.MessagesPerLaunch | host/src/pghost/lgclient.cpp:199-217 | a launch sends CHECK, at most one GET_IDLE, at most one SET_BUNDLE and at most two closes, all for its own slot |
| ProtocolTable.SlotLifeCycle | host/src/pghost/vatclient.cpp:349-445 | where no bundle is read as one for another slot, a slot changes only when the session that was granted it handles GET_IDLE, SET_BUNDLE or the first close of its launcher |
| ProtocolTable.Conservation | host/src/pghost/vatclient.cpp:349-445 | then slots that are not idle are the grants less the closes, and GET_IDLE is refused exactly when all slots are out |
| ProtocolTable.TableAgreesWithHolders | host/src/pghost/vatclient.cpp:374-400 | then a used slot carries the names its holder announced, as its session read them; a reserved one waits for its holder's bundle |
| ProtocolTable.IndicesInTable | host/src/pghost/vatclient.cpp:390-396 | where no bundle is read as one below the table, no session ever meets a number below it, although only the upper bound is checked, and that of a close is in the table, whatever the names in requests to close |
| ProtocolExact.NeverBelowExactly | host/src/pghost/vatclient.cpp:390-396 | for any set of names that may be launched and any sound reader: no run indexes the table below its start if and only if no bundle of these names is read as one below it |
| ProtocolExact.NeverStraysExactly | host/src/pghost/vatclient.cpp:374-400 | likewise every slot follows its life cycle in all runs if and only if no bundle is read as one for another slot of the table |
| ProtocolExact.ConservationExactly | host/src/pghost/vatclient.cpp:374-445 | likewise slots are conserved in all runs if and only if every such bundle goes into a lower slot that nobody can give back |
| ProtocolProgress.StepSpends | host/src/pghost/vatclient.cpp:278-451 | every step but a connect lowers a measure over queues, phases and flags |
| ProtocolProgress.NoLivelock | host/src/pghost/vatclient.cpp:278-451 | a run has at most 22 steps for each connect in it |
| ProtocolRecovery.CanBeFreed | host/src/pghost/lgclient.cpp:187-197 | from every other state in which a slot is out some continuation frees it |
| ProtocolRecovery.FreedAgainExactly | host/src/pghost/vatclient.cpp:434-445 | whatever the names, a slot that is out can become idle again if and only if it has an owner whose session thread is in its loop, will get as far as the close, can read its bundle, and the close is there or can still be sent |
| ProtocolRecovery.LosesExactly | host/src/pghost/vatclidaemon.cpp:337-349 | a slot that can still be given back is lost for good by exactly four steps of its owner's connection: a crash before a close is under way, a failed read before the bundle is handled, a stopped session woken up or dropped before the close |
| ProtocolCalm.EverySlotIsFreed | host/src/pghost/vatclient.cpp:434-445 | at rest, the owner of a slot is one whose own launcher crashed, from which a read failed, or whose bundle cannot be read; where no bundle strays every slot without owner is idle |
| ProtocolCalm.NothingIsLost | host/src/pghost/vatclient.cpp:434-445 | so when no connection with a grant was disturbed, and no bundle strays, every slot is idle at rest and every grant closed |
| ProtocolCalm.NobodyIsStuck | host/src/pghost/lgclient.cpp:379-408 | at rest sessions and launchers that have stopped have left their loops and the map, no viewer thread is under way, the sockets are empty and only messages that cannot be read are left in queues of sessions |
| ProtocolCalm.ComesToRest | host/src/pghost/vatclient.cpp:258-275 | from every state there is such a rest within the budget, without new connections, crashes or failed reads |
| ProtocolClose.RequestReachesOwner | host/src/pghost/vatclient.cpp:401-432 | a close request by name puts APP_DIED on the way to the owner of the lowest used slot whose application name contains the name |
| ProtocolClose.CloseByNameFreesTheSlot | host/src/pghost/vatclidaemon.cpp:105-139 | and ends, nothing else intervening, with exactly that slot idle, its owner stopped, the requester told, all else unchanged |
| ProtocolText.TextsAreSound | host/src/pghost/connmgr.cpp:87-131 | whatever names a message carries, its receiver reads its type, and a message without names as sent: all that is proved of sound readers holds on texts |
| ProtocolText.TextRunsAreRuns | host/src/pghost/connmgr.cpp:87-131 | for fitting names the protocol on texts has the runs and reaches the states it would have if every message were read as sent |
| ProtocolText.EveryMessageArrives | host/src/pghost/connmgr.cpp:157-176 | in such a run every message ever sent, to the daemon, to a launcher or over the global queue, is received as sent, whatever its frame held before |
| ProtocolText.PlainNamesFit | host/src/pghost/lgclient.cpp:209-212 | names without delimiters and keys and of at most 206 characters fit a launch on any number of slots |
| ProtocolText.PlainRequestFits | host/src/pghost/lgclient.cpp:222-225 | and such names fit a request to close, up to 234 characters with the package name and 216 for the application |
| ProtocolText.FittingRunIsStraight | host/src/pghost/vatclient.cpp:374-400 | runs with fitting names meet the conditions of the promises about the table |
| ProtocolMisread.IndexExactly | host/src/pghost/vatclient.cpp:384-396 | on texts, for names without delimiters: no run indexes the table below its start if and only if no session reads a negative number from a bundle of these names |
| ProtocolMisread.LifeCycleExactly | host/src/pghost/vatclient.cpp:374-400 | on texts, slots follow their life cycle if and only if no session reads the number of another slot from a bundle |
| ProtocolMisread.CountExactly | host/src/pghost/vatclient.cpp:374-445 | and their count is right under the same condition, and only under it |
| ProtocolMisread.LaunchFitsExactly | host/src/pghost/lgclient.cpp:199-217 | the names of a launch fit if and only if in no run of such launches a message is misread |
| ProtocolMisread.NegativeIndexReached | host/src/pghost/vatclient.cpp:390-396 | an activity such as `lg_instance_id:-1` makes a session index the table below its start |
| ProtocolMisread.UngrantedSlotUsed | host/src/pghost/vatclient.cpp:390-396 | another such activity marks a slot used that nobody was granted, so that two slots are out for one grant |
| ProtocolMisread.MisreadYetInside | host/src/pghost/vatclient.cpp:384-396 | an activity that poses as a slot of the table does not fit and spoils the table, but never makes a session leave it |
| ProtocolMisread.UnmatchedToldExactly | host/src/pghost/vatclidaemon.cpp:105-139 | the global close of a request that matched no slot tells some session if and only if the number read from it is that of a slot which a session on the map carries |
| ProtocolMisread.UnmatchedTellsExactly | host/src/pghost/vatclient.cpp:424-428 | for any sound reader: some run lets such a request have an application closed if and only if the daemon reads a slot of its table from the global close |
| ProtocolMisread.UnmatchedExactly | host/src/pghost/vatclient.cpp:424-428 | on texts: if and only if the name of the request holds "lg_instance_id" with the number of a slot behind it |
| ProtocolMisread.AnotherIsClosed | host/src/pghost/vatclient.cpp:424-428 | a request to close `lg_instance_id:k` that matches no slot tells the launcher in slot k that its application died |
| Codec.GetEventNameById | host/src/pghost/utils.cpp:62-83 | the loop over the table finds the name of the first entry with the number |
| Codec.GetEventIdByName | host/src/pghost/utils.cpp:112-131 | the loop finds the number of the first entry whose name matches without regard to case, else -1 |
| Codec.EqualExactly | host/src/pghost/utils.cpp:112-131 | names are compared equal exactly when they differ in the case of ASCII letters only |
| Codec.ComposeMsgBody | host/src/pghost/utils.cpp:85-110 | the buffer holds the composed text and a terminator; for an unknown event it is left alone |
| Codec.GetKeyValueInto | host/src/pghost/utils.cpp:141-170 | the buffer holds the extracted value and a terminator; when key or separator is missing it is left alone |
| Codec.ReEncode | host/src/pghost/connmgr.cpp:87-131 | an arriving message becomes the event's number and its data composed again |
| Codec.IdOfName | host/src/pghost/utils.cpp:42-60 | an event's number is found under its own name in any mixture of cases, and under no other name |
| Codec.NameOfId | host/src/pghost/utils.cpp:62-83 | every event has its own name, and no other number has one |
| Text.FindIsFound | host/src/pghost/utils.cpp:146-155 | the search yields the first occurrence, or that there is none |
| Numerals.AtoiOfDecimal | host/src/pghost/vatclient.cpp:390-390 | what `%d` prints `atoi` reads back |
| Numerals.AtoiReads | host/src/pghost/vatclient.cpp:390-390 | white space, a sign and digits are read as the number they spell, whatever follows, in 32 bits |
| Message.ComposeIsWhole | host/src/pghost/utils.cpp:93-103 | whatever the data, composing into 512 bytes never cuts the outer message: body at most 497, whole at most 511 |
| Message.EveryMessageIdentifiesItself | host/src/pghost/utils.cpp:85-131 | whatever the data, cut or not, the length field is the true body length and the name read back leads to the event |
| Message.DecodeComposed | host/src/pghost/connmgr.cpp:87-131 | decoding a composed message of any length keeps the data up to the first `;` and wraps it again |
| Message.DecodeCut | host/src/pghost/connmgr.cpp:104-116 | data whose `;` is missing or cut off cannot be decoded |
| Wire.BundleNumberReads | host/src/pghost/lgclient.cpp:291-296 | the slot number of SET_BUNDLE, written behind `:`, is read all the same |
| Wire.RoundTrip | host/src/pghost/connmgr.cpp:87-131 | over a frame filled up with anything, the handler sees the event that was sent, for all clean names within the sender's limits (233, and 217 less the number for SET_BUNDLE) |
| Wire.UnreadDataArrives | host/src/pghost/vatclient.cpp:338-372 | events whose data nobody reads arrive with any data |
| WireExact.ArrivesExactly | host/src/pghost/utils.cpp:141-170 | for every event with arbitrary names and 32-bit numbers: it is received as sent if and only if its names meet a condition the sender could test |
| WireExact.NamesReceivedExactly | host/src/pghost/lgclient.cpp:209-212 | the condition for the messages with two names: no delimiter, 233 characters, and no "activity" in the application name unless the activity follows it |
| WireExact.BundleReceivedExactly | host/src/pghost/lgclient.cpp:291-296 | the condition for SET_BUNDLE: besides, 217 characters with the number, and no "lg_instance_id" in either name unless it reads as the number sent |
| WireExact.CloseReceivedExactly | host/src/pghost/vatclient.cpp:424-428 | the condition for the global close, likewise |
| WireExact.RequestReceivedExactly | host/src/pghost/lgclient.cpp:222-225 | the condition for the request to close: a `;` must be left in the sender's buffer |
| WireExact.BundleReceived | host/src/pghost/vatclient.cpp:374-390 | what a session receives of any bundle without delimiters: which activity and which number |
| WireExact.ArrivesIffFits | host/src/pghost/lgclient.cpp:209-212 | for clean fields the limits are exact: one character more and the handler gets nothing |
| WireExact.BundleMisread | host/src/pghost/vatclient.cpp:384-390 | a bundle for any slot with activity `lg_instance_id:k` is received as a bundle for slot k |
| WireExact.CloseMisread | host/src/pghost/vatclient.cpp:424-428 | a global close of application `lg_instance_id:k` is received as a close of slot k |
| WireExact.ActivityAsAppname | host/src/pghost/utils.cpp:141-170 | an application called "activity" never arrives |
| Framing.ConnSock.Read | host/src/pghost/connsock.cpp:56-85 | either the whole length arrives, being exactly the next bytes, or the result is not positive; 0 only at the end of the stream |
| Framing.ConnSock.Write | host/src/pghost/connsock.cpp:198-218 | either the whole message is sent in order or a proper beginning of it and -1 |
| Framing.StreamSplitsOnce | host/src/pghost/connmgr.cpp:201-225 | a stream of whole frames can be cut up in one way only |
| Framing.ConnLoop | host/src/pghost/connmgr.cpp:201-225 | however transfers are split, the reader hands on a beginning of the list sent, and all of it when the stream ends |
| EventQueues.EventQueue.GetEmptyEventObj | host/src/pghost/eventqueue.cpp:26-50 | the front of the pool, or a new object when it is empty |
| EventQueues.EventQueue.FreeEventObj | host/src/pghost/eventqueue.cpp:52-62 | the object goes to the end of the pool |
| EventQueues.EventQueue.EnQueue | host/src/pghost/eventqueue.cpp:64-77 | the object goes to the end of the queue |
| EventQueues.EventQueue.DeQueue | host/src/pghost/eventqueue.cpp:87-109 | the front of the queue after at most one wait; nothing when a wake-up finds it empty |
| EventQueues.Pools.Post | host/src/pghost/vatclient.cpp:106-150 | queue `to` gets one more object at its end, which holds the event and is the front of the pool of `from` or new; hands, other queues and other objects stay; in memory as in the model |
| EventQueues.Pools.HandleNext | host/src/pghost/vatclidaemon.cpp:142-154 | one round of a loop: the front event is taken, handled and its object put at the end of the pool of that queue, or nothing happens when a wake-up finds the queue empty; in memory as in the model |
| EventQueues.PostingPosts | host/src/pghost/vatclient.cpp:136-149 | on the model: what was put in `to` is longer by exactly the event, its object comes from the front of the pool of `from` or is new, all else stays |
| EventQueues.HandlingRecycles | host/src/pghost/vatclidaemon.cpp:142-154 | on the model: the front object of the queue moves to the back of the pool of the same queue, all else stays |
| EventQueues.MoveKeepsPlaces | host/src/pghost/eventqueue.cpp:26-109 | every operation takes an object from one place to one other |
| EventQueues.HeldObjectsAreNotShared | host/src/pghost/vatclient.cpp:136-149 | in every run an object in a thread's hand is in no queue, no pool and no other hand |
| EventQueues.QueuesAreFifo | host/src/pghost/eventqueue.cpp:64-109 | in every run what left a queue is a beginning of what entered it, unchanged, and the rest is in it |
| SingleMode.SingleVatClient.HandleEvent | host/src/pghost/vatclient.cpp:153-252 | every event's whole effect in the build with one slot |
| SingleMode.HandleGlobal | host/src/pghost/vatclidaemon.cpp:68-103 | the first session whose name contains the name is told APP_DIED, and nobody only when there is none; the slot is cleared exactly when a session is told and the slot's name contains it too |
| SingleMode.SlotIsRegister | host/src/pghost/vatclient.cpp:188-242 | over every history the slot holds the last bundle, or is idle exactly when none was set or a matching close came since; its names stay even then |
| SingleMode.LastOpenedIsExact | host/src/pghost/vatclient.cpp:226-242 | so "close the application opened last" names the most recent bundle, or says "no app" exactly in those cases |
| SingleMode.AnswersExactly | host/src/pghost/vatclient.cpp:153-252 | what a session answers to each event and what it puts on the global queue, and that only a bundle changes slot and names |
| SingleMode.LaunchTakesOver | host/src/pghost/vatclient.cpp:173-200 | from CHECK to SET_BUNDLE, launcher and session together: every launch is granted slot 0 and takes it over, whatever it holds |
| SingleMode.CloseIsPassedOn | host/src/pghost/lgclient.cpp:221-231 | launcher and session together: a request to close by name is passed on, and its launcher stops with 0, whether or not such an application was opened |
| SingleMode.LastOpenedIsClosed | host/src/pghost/lgclient.cpp:319-338 | and a launcher that closes the application opened last stops with -1 and its own names exactly when there is none, else with 0 and the names of the last bundle, whose close is passed on |
| HostSettings.Agent.AddListener | guest/ServiceAgent/src/com/intel/serviceagent/BnHostSettingsAgent.java:47-56 | the waiting settings reach the host, whatever the order of the keys, and none is left waiting |
| HostSettings.Agent.RemoveListener | guest/ServiceAgent/src/com/intel/serviceagent/BnHostSettingsAgent.java:58-62 | only the attached listener can be removed |
| HostSettings.Agent.SetHostSetting | guest/ServiceAgent/src/com/intel/serviceagent/BnHostSettingsAgent.java:72-80 | a setting goes to the host when a listener is attached, and waits otherwise |
| HostSettings.BufferAgreesWithDirectWrites | guest/ServiceAgent/src/com/intel/serviceagent/BnHostSettingsAgent.java:47-80 | after any calls the host overlaid with what waits equals the result of writing every setting at once; nothing waits while a listener is attached |
| HostSettings.OutcomeIgnoresListeners | guest/ServiceAgent/src/com/intel/serviceagent/BnHostSettingsAgent.java:47-80 | when listeners came and went makes no difference to the host once one is attached |
| HostSettings.ListenerIsLastAdded | guest/ServiceAgent/src/com/intel/serviceagent/BnHostSettingsAgent.java:47-62 | a listener is attached exactly when the last call that added one, or none, added it and it has not been removed since; removing another changes nothing |
| HostSettings.NothingPassesUnheard | guest/ServiceAgent/src/com/intel/serviceagent/BnHostSettingsAgent.java:72-80 | as long as nobody is attached the host's settings stay as they are, and exactly what is set is added to what waits |
| StackLists.AdbProxy.ReadLine | host/src/pghost/AdbProxy.cpp:332-369 | one line's effect on the map, with `emplace` keeping what is there and `at` throwing |
| StackLists.AdbProxy.ReadListing | host/src/pghost/AdbProxy.cpp:325-370 | the loop reads the lines before the first error message, or up to the line that throws |
| StackLists.AdbProxy.GetStackList | host/src/pghost/AdbProxy.cpp:309-379 | a broken attempt is followed by another one into the same map; -1 only when the first attempt cannot start |
| StackLists.CallEndsAt | host/src/pghost/AdbProxy.cpp:309-379 | a call ends with the first attempt that is not broken off: its status, its map and whether the proxy is left connected follow from that attempt, as every retry connects anew |
| StackLists.ParseYields | host/src/pghost/AdbProxy.cpp:332-369 | for stacks and tasks the first line wins over later ones and what was there over both, for modes the last |
| StackLists.ParseThrowsExactly | host/src/pghost/AdbProxy.cpp:342-369 | a listing throws exactly when a configuration or task has no header above it |
| StackLists.RetryIsHarmless | host/src/pghost/AdbProxy.cpp:326-331 | however often the connection breaks, the result is that of one parse of the whole listing |
| StackLists.DeterminedExactly | host/src/pghost/AdbProxy.cpp:321-350 | the result does not depend on uninitialised modes exactly when every stack has a configuration |
| StackLists.TaskIsFiled | host/src/pghost/AdbProxy.cpp:351-369 | every task is under the stack of the latest header, its ids equal to the keys, with the data of its first line |
| StackLists.FiledTaskWasListed | host/src/pghost/AdbProxy.cpp:351-369 | and no other task is in the map |
| Menu.UpdateMenuIniFile | host/src/pack/dpkg/opt/cfc/mwc/bin/update_pg_menu.py:10-29 | a known name changes nothing, a new one gets the greatest index (or 0) plus one |
| Menu.LowerExactly | host/src/pack/dpkg/opt/cfc/mwc/bin/update_pg_menu.py:14-16 | two names are the same key exactly when they differ in the case of ASCII letters only |
| Menu.BatchOnlyAdds | host/src/pack/dpkg/opt/cfc/mwc/bin/update_pg_menu.py:18-25 | over any batch entries never change, new indices exceed all earlier ones, an injective section stays injective |
| Menu.RepeatIsIdle | host/src/pack/dpkg/opt/cfc/mwc/bin/update_pg_menu.py:14-16 | running names of a batch again, in any order and in any mixture of ASCII cases, changes nothing |
| Menu.FreshBatchNumbers | host/src/pack/dpkg/opt/cfc/mwc/bin/update_pg_menu.py:18-25 | from an empty section the distinct names get 1, 2, 3, ... in the order first seen |

## Left out

- Handlers that run at the same moment on the shared slot table: the source has a data race there; the model takes each handler as one step.
- "Every slot is freed in the end" whatever breaks, "a close request is always answered", "no two slots run the same activity", "slot numbers are unique among sessions": the code does not ensure them; `ProtocolRecovery.FreedAgainExactly` says when a slot can be freed at all, `ProtocolCalm.EverySlotIsFreed` what can keep it from being freed.
- Sockets, epoll, address resolution, the viewer process, shell scripts and adb: they appear as channels, as steps that may happen at any time, or as lines of text.
- Joining of threads and shutting down: a `DeQueue` that waits may miss its wake-up, so that every session is reclaimed is not claimed; objects still in a queue or pool when it is destroyed are not followed.
- Use of the connection manager by the viewer thread after the main loop has released it.
- File descriptors that are reused while they are on the map, and the path for EPOLLERR and EPOLLHUP.
- VatSession.VatClient.HandleEvent: a slot number below the table is excluded, as what the code then writes to is not defined; `ProtocolExact.NeverBelowExactly` says exactly when none comes.
- DaemonSteps.HandleNext: the same numbers are excluded.
- DaemonSteps.Connects: a descriptor that is still on the daemon's map. A release takes the entry out before it closes the descriptor (host/src/pghost/vatclidaemon.cpp:345-346), but on EPOLLERR and EPOLLHUP the descriptor is closed and the entry stays (host/src/pghost/vatclidaemon.cpp:274-281), so that a later connection with the same number would be read by the old session.
- VatSession.VatClient.RunLoop: other sessions' changes to the table between two events, and events that arrive meanwhile, are steps of `Protocol`, not of this loop; so are for LGLauncher.LGClient.MainLoop the moves of the viewer thread.
- LGLauncher.LGClient.MainLoop: see the line above.
- ProtocolMisread.LaunchFitsExactly: of requests to close that do match a slot it is exact message by message when the global close is read as sent (`WireExact.CloseReceivedExactly`); in which runs such a slot is used depends on the names that others launch.
- ProtocolMisread.IndexExactly: names with `,` or `;` are covered by `ProtocolExact`, where the condition is on what is read and not spelled out in characters.
- ProtocolClose.CloseByNameFreesTheSlot: shows the path with no other step in between, as other sessions may carry the same slot number or take the message.
- Daemon.VatCliDaemon.Readable: the read itself and the hand-over to the queue are in `Framing` and `Codec`.
- Framing.Socket: `send` moving nothing and reporting no error is excluded, as the loop would not end; of the error codes only "would block or not" is distinguished.
- Wire.RoundTrip: values longer than a receiver's buffer count as lost, where the code would overrun the buffer; extraction that fails counts as lost, where the code would use what the buffer held.
- Codec.GetKeyValueInto: a separator found inside the key's place, which makes the copied length negative, is excluded by its precondition.
- Codec.ReEncode: messages of which a field cannot be extracted or is longer than its buffer are excluded, as the code goes on with what its local buffers held or overruns them.
- StackLists.AdbProxy.ReadLine: see the next line.
- StackLists.AdbProxy.ReadListing: lines come already scanned; lines of which `sscanf` fills only some fields, the words of the two modes, and a configuration line without a windowing mode are not modelled.
- HostSettings: a listener that fails with RemoteException during a call.
- Menu.UpdateMenuIniFile: the file, values that are not numbers, keys of the DEFAULT section and lower case beyond ASCII.
- The Android agents other than the host settings, generated Binder code, `ShortcutMgrLg`, `kydroidapi`, `mwc_main`, `msg_agent`, `vatlauncher`, logging and desktop files: thin wrappers or output.
- `readNonBlock`, `writeNonBlock` and `get_uniq_session_id`: not used by the daemon or the launcher.
