# Verified model of the VSCP MQTT daemon

The daemon starts one thread per configured driver. The thread loads the driver's
library, opens the driver, connects to an MQTT broker, passes the driver's events to the
broker until it is told to quit, and closes everything again. Meanwhile the broker's client
calls back with events for the driver, and the main thread starts the device threads, sends
heartbeats, and later stops, joins and deletes everything. A shared discovery routine stores
and announces every sender it has not seen before.

`dafny verify dfyconfig.toml` checks the whole project.

## How the model is laid out

- `Lifecycle.dfy`: the daemon as a transition system for any number of devices and callbacks.
  `DevPc`, `CbPc` and `MainPc` are the program counters of a device thread
  (`src/devicethread.cpp:180-850`), a callback (`src/devicethread.cpp:85-147`) and the main
  thread (`src/controlobject.cpp:1353-1405`, `src/controlobject.cpp:1083`,
  `src/controlobject.cpp:364-389`, `src/mqttvscpd.cpp:434-454`). One step is one access to shared
  state. `LifecycleInvariant.dfy` and `LifecycleGlobal.dfy` hold the invariant,
  `LifecycleSafety.dfy` what it says about driver calls, closing, quitting and joining,
  `LifecycleCounts.dfy` what happens how often along a run, `LifecycleRaces.dfy` which of the shared fields are free of data races,
  `LifecycleDestruction.dfy` what callbacks meet when the items are deleted (`LifecycleRuns.dfy` has
  the runs behind the failing cases), `LifecycleProgress.dfy` deadlock freedom and the bound on
  work after a quit request, `LifecycleTermination.dfy` the termination of shutdown in fair runs.
- `Discovery.dfy`: the map, the UNIQUE-keyed table and the announcements, as a class whose
  methods are proved against the functions `Discover` and `Start`, and what holds over restarts.
  `DiscoveryConcurrency.dfy`: any number of concurrent calls, step by step; `DiscoveryRestarts.dfy`:
  the same over many processes on one database, each of which may be killed at any step.
- `Events.dfy`: translation and frame normalisation on values. `WorkLoops.dfy`: the three work
  loops on event objects and payload buffers, with the set of live buffers as ghost state.
- `Directories.dfy`, `Heartbeat.dfy`, `Tokens.dfy`, `DeviceList.dfy`: directory creation, the
  heartbeat schedule, the token tables, and the device list with its cleanup.

## What turned out to hold only under a condition

- Driver calls are safe exactly when two things hold (`LifecycleSafety.DriverCallsSafeIff`): a client
  whose connect failed delivers no callback, because the failure paths unload the library without
  the device mutex and without setting the quit flag (`src/devicethread.cpp:444-448`,
  `src/devicethread.cpp:774-780`); and no Level I driver reports level 2, because the reported level
  replaces the configured one (`src/devicethread.cpp:455`) and would select an entry point that was
  never looked up. Callbacks that arrive after disconnect find the quit
  flag set and call no driver.
- Such late callbacks do reach a destroyed mutex: an item's destructor destroys the device mutex
  (`src/devicelist.cpp:143-149`) before the item's MQTT client, a member, is destroyed. None ever locks
  a destroyed device mutex exactly when the client keeps quiet after a failed connect and its
  disconnect waits, or the device never has a client at all (`LifecycleDestruction.CallbacksFindMutexIff`).
- The driver level is stored without the device mutex under which callbacks read it, and after a
  failed Level II connect so is the handle. `LifecycleRaces.RaceFreeIff` says for which devices neither
  is a data race. In the model such a read sees the old or the new value.
- A finished thread leaves its driver open exactly when it is a Level I thread whose connect
  failed, and its library loaded exactly on the three exits that do not unload
  (`LifecycleSafety.LeftOpenIff`); every enabled Level I device can end the first way and every enabled
  device the second (`LifecycleSafety.CleansUpIff`).
- Unwrapping a wrapped event recovers it exactly when payload size plus 16 fits 16 bits
  (`Events.UnwrapRecoversIff`); CANAL messages of at most 8 bytes always do
  (`WorkLoops.WrappedMessagesUnwrap`).
- The blocking loop keeps live exactly the buffers that a failed conversion leaves behind, and the
  Level II loop those of failed reads; the polling loop keeps none (`WorkLoops.BlockingLoop`,
  `WorkLoops.LevelIILoop`, `WorkLoops.PollingLoop`). The blocking loop clears
  byte 14 of the sender GUID and the polling loop does not (`WorkLoops.LoopsAgree`).
- What was handed to the broker is delivered ever after exactly if the broker took it then
  (`Discovery.RefusedIsNeverRepeated`). A GUID can still come to be announced exactly if it has been, is
  about to be, or is not stored: a process killed between its insert and its announcement loses that
  GUID for good (`DiscoveryRestarts.AnnouncedEventuallyIff`, `DiscoveryRestarts.KilledBeforeAnnouncing`).
- A database without its table gets one exactly if some start finds no file and creates it; until then
  nothing is announced (`Discovery.TablelessFileStaysSilent`).
- The comments at `src/controlobject.cpp:1046` and `src/controlobject.cpp:1054` say that the first
  heartbeat is sent right away and then one every minute. In the code the first comes at least one
  second after the start and the others at least 61 seconds apart (`Heartbeat.BeatsApart`).

## Model

| member | source | states |
|---|---|---|
| LifecycleGlobal.ReachableInv | src/devicethread.cpp:85-850 | in every state of every interleaving the handle, driver, library, mutex holders, quit flags and callbacks of each device agree with where its thread and the main thread stand |
| LifecycleGlobal.StepKeepsInv | src/devicethread.cpp:85-850 | each single step of a device thread, callback, arrival or the main thread keeps that agreement |
| LifecycleSafety.DriverCallsSafeIff | src/devicethread.cpp:100-146 | every driver call of every interleaving finds the driver open, the library loaded, its entry point resolved and, at Level I, the event converted, if and only if clients are quiet after a failed connect and no Level I driver reports level 2 |
| LifecycleSafety.CallbackDecides | src/devicethread.cpp:102-146 | under the mutex a callback goes on to call the driver if and only if quit is false, the handle is not zero, and the level is 2, or 1 with an event that converts; otherwise it leaves |
| LifecycleSafety.OnlyConvertedIsSent | src/devicethread.cpp:111-115 | in every interleaving a callback inside a Level I driver holds the device mutex and hands over an event that converted |
| LifecycleSafety.ResolveDecides | src/devicethread.cpp:210-230 | a failed look-up of the entry points unloads the library if and only if the level is 1 and CanalOpen was found |
| LifecycleSafety.OpenDecides | src/devicethread.cpp:397-408 | the thread goes on to connect if and only if a Level I handle is positive or a Level II handle is not zero |
| LifecycleCounts.EveryReadIsPublished | src/devicethread.cpp:473-535 | along every run events read equal events published plus the one in hand; with an open database each publication follows a hold of the discovery mutex of its own, without one it is never taken |
| LifecycleCounts.PublishesIff | src/devicethread.cpp:788-824 | a device can publish n events, for any n above 0, if and only if it is enabled and of level 1 or 2 |
| LifecycleCounts.LoopEndsOnlyOnRequest | src/devicethread.cpp:473 | a thread leaves its work loop, and its quit flag is set, only after the main thread asked |
| LifecycleCounts.StoppedTwice | src/mqttvscpd.cpp:446-454 | by the time anything is deleted each enabled device went through stopping exactly twice, a disabled one never |
| LifecycleSafety.NoisyClientUnsafe | src/devicethread.cpp:774-780 | for any configuration with a noisy client, a run in which connect fails while a callback is inside the driver |
| LifecycleSafety.WrongLevelUnsafe | src/devicethread.cpp:455 | for any Level I driver that reports level 2, a run in which a callback takes an unresolved entry point |
| LifecycleSafety.ClosedOnceBeforeUnload | src/devicethread.cpp:652-666 | a thread that reached its work loop, or a Level II thread whose connect failed, closes once, never unloads before closing, and ends with both done once and the handle zero |
| LifecycleSafety.LeftOpenIff | src/devicethread.cpp:444-448 | a finished thread leaves the driver open if and only if it is Level I and its connect failed, and the library loaded if and only if the level was neither, CanalOpen was missing, or a Level II entry point was |
| LifecycleSafety.LeftOpenRun | src/devicethread.cpp:444-448 | for any enabled Level I device and any client, a run that ends with the driver open in an unloaded library |
| LifecycleSafety.CleansUpIff | src/devicethread.cpp:444-448 | no interleaving leaves a device's driver open if and only if it is disabled or not Level I; none leaves its library loaded if and only if it is disabled |
| LifecycleSafety.QuitStays | src/devicelist.cpp:242-244 | no step of anyone takes back a quit request |
| LifecycleSafety.AtMostOneLate | src/devicethread.cpp:788-824 | after the quit flag is true at most one more publication and one more driver send of that device complete, in any continuation with any number of waiting callbacks |
| LifecycleSafety.MutexesExclude | src/devicethread.cpp:656-661 | two callbacks, or a callback and the closing thread, never hold one device mutex together; two devices never hold the discovery mutex together |
| LifecycleSafety.JoinedExactlyOnce | src/devicelist.cpp:239-263 | no thread is joined more often than created; after the first cleanup each created thread has been joined exactly once and none is live |
| LifecycleSafety.SecondCleanupChangesNothing | src/mqttvscpd.cpp:446-454 | no step of the second cleanup changes anything of any device but the thread mutex it locks and unlocks |
| LifecycleSafety.DestroyedAtRest | src/controlobject.cpp:364-389 | when the discovery mutex or an item is destroyed no device thread is live and no mutex held; with a quiet client that waits no callback is in flight |
| LifecycleDestruction.CallbacksFindMutexIff | src/devicelist.cpp:143-149 | no interleaving has a callback in flight, or locking, at a device mutex that was destroyed if and only if the client is quiet and waits, or the device is disabled or of neither level |
| LifecycleDestruction.DestroyedInOrder | src/controlobject.cpp:364-389 | the discovery mutex is destroyed first, then item by item the device mutex and after it the client, each by one step, and nothing comes back |
| LifecycleDestruction.LocksDestroyedRun | src/devicethread.cpp:100 | for every other device, a run in which a callback locks the destroyed device mutex |
| LifecycleRaces.RaceFreeIff | src/devicethread.cpp:455 | the driver level is free of data races if and only if the device is disabled or not Level I, the handle if and only if clients are quiet after a failed connect or the device is disabled or not Level II |
| LifecycleProgress.NoDeadlock | src/devicelist.cpp:242-251 | every live thread can step, or waits through at most three others for a live one that can, for any number of devices and callbacks |
| LifecycleProgress.QuitBoundsSteps | src/devicethread.cpp:788-843 | after its quit request a device thread takes at most 15 more steps in any run |
| LifecycleTermination.ShutdownTerminates | src/controlobject.cpp:1388-1405 | in every fair infinite run a main thread that has begun to stop the devices joins them all and ends, with no device thread live |
| LifecycleTermination.QuittersExit | src/devicethread.cpp:826-847 | in every fair infinite run a device thread that was asked to quit exits, joined or not |
| LifecycleTermination.CallbacksRunOut | src/devicethread.cpp:828-830 | the wait inside disconnect ends: once delivery has stopped the callbacks in flight leave |
| LifecycleTermination.DiscoveryMutexComesFree | src/controlobject.cpp:1278-1328 | whoever holds the discovery mutex releases it |
| Discovery.ControlObject.Discovery | src/controlobject.cpp:1258-1329 | one call leaves exactly the state of "if absent: insert, announce, remember", on every error path |
| Discovery.ControlObject.Init | src/controlobject.cpp:607-720 | the database part of initialisation on every path: no path, no file, failed open, failed or partial rebuild, failed creation |
| Discovery.StartRuns | src/controlobject.cpp:607-720 | after initialisation the daemon runs unless it had to create the database and a statement failed; the database is open if and only if there is a path and the open succeeds |
| Discovery.StartRebuilds | src/controlobject.cpp:626-642 | on an existing file the map has exactly the GUIDs of the rows read, each with the name of its last row, and is empty if none is read; the table is untouched |
| Discovery.FirstStart | src/controlobject.cpp:645-717 | a successful first start leaves exactly the daemon's own row and name, a failed one an empty table or none and no name |
| Discovery.AnnouncedAtMostOnce | src/controlobject.cpp:1280-1325 | over whole calls one after the other and orderly restarts, with any failures, the records stay consistent and no GUID is announced twice |
| Discovery.RefusedIsNeverRepeated | src/controlobject.cpp:1314-1325 | an announced GUID is among the delivered ones after any calls and restarts if and only if it was before them |
| Discovery.AnnouncesIff | src/controlobject.cpp:1280-1325 | a call announces if and only if the daemon runs with an open database and the table exists, accepts the row and does not have the GUID: the map never decides; it then stores the row, remembers the name, and the GUID is delivered if and only if the broker takes it; otherwise nothing changes |
| Discovery.TablelessFileStaysSilent | src/controlobject.cpp:613-643 | a missing table comes to exist if and only if some start finds no file, opens one and creates the table; until then nothing is stored or announced |
| Discovery.RecordsAgree | src/controlobject.cpp:1280-1328 | after any calls the map's keys are GUIDs of the table, and rows, announcements and keys added since the start are the same GUIDs without repetition |
| DiscoveryConcurrency.Linearises | src/controlobject.cpp:1277-1328 | whenever the mutex is free the shared state is what the calls leave when run one at a time in lock order, each call at most once |
| DiscoveryConcurrency.RecordsAgreeConcurrently | src/controlobject.cpp:1277-1328 | the agreement of map, table and announcements under any interleaving |
| DiscoveryConcurrency.OrderOnlyGrows | src/controlobject.cpp:1278 | the linearisation order respects real time |
| DiscoveryRestarts.AnnouncedAtMostOnceEver | src/controlobject.cpp:1280-1325 | with calls interleaving and processes killed at any step and restarted, the records are consistent in every state, no GUID is ever announced twice, announcements only accumulate, and a refused one is never delivered later |
| DiscoveryRestarts.AnnouncedEventuallyIff | src/controlobject.cpp:1295-1325 | some continuation announces a GUID if and only if it was announced, a caller has just stored it, or it is not stored |
| DiscoveryRestarts.KilledBeforeAnnouncing | src/controlobject.cpp:1295-1314 | a kill between insert and announcement leaves a GUID stored and never announced in any later life |
| Events.UnwrapRecoversIff | src/devicethread.cpp:513-524 | unwrapping a wrapped event gives the event back if and only if its size plus 16 fits 16 bits |
| Events.WrapOfLevelI | src/devicethread.cpp:610-621 | a class below 512 becomes 512 to 1023, the type stays, the payload follows 16 zero bytes |
| Events.TranslationForms | src/devicethread.cpp:501-524 | flag 1 selects the float form, flag 2 the string form, both the string of the float form, and flag 4 wraps it so that unwrapping gives it back |
| Events.NormalisedIsUnixNs | src/devicethread.cpp:800-813 | every normalised frame is a nanosecond frame, has a time stamp unless the clock reads zero, and keeps all other header bits, whatever the date conversion returns |
| Events.OtherVersionFields | src/devicethread.cpp:800-810 | a frame of another version gets year 0xffff and month 0xff and the stamp of its own date if that is in range and converts, else the clock; all other fields stay |
| Events.NanosecondFields | src/devicethread.cpp:811-813 | a nanosecond frame keeps everything but a zero stamp, which becomes the clock |
| Events.NormaliseIdempotent | src/devicethread.cpp:800-813 | normalising again at a later time changes nothing |
| Events.NormaliseFixedIff | src/devicethread.cpp:800-813 | a frame is left alone if and only if it is a nanosecond frame with a time stamp |
| WorkLoops.VscpEvent.WrapInPlace | src/devicethread.cpp:513-524 | the in-place wrap has the content of `Wrap`, frees the old buffer once and owns the new one |
| WorkLoops.BlockingLoop | src/devicethread.cpp:473-535 | publishes the convertible messages in order, translated; what stays live is exactly what failed conversions left |
| WorkLoops.PollingLoop | src/devicethread.cpp:547-646 | publishes the convertible messages in order, translated; nothing stays live, on every path |
| WorkLoops.LoopsAgree | src/devicethread.cpp:473-646 | both loops publish the same class, type and payload for the same messages, one for each that converts; the polling loop with the converted sender GUID, the blocking loop with its byte 14 cleared |
| WorkLoops.PublishedForms | src/devicethread.cpp:501-524 | what either loop publishes is the form of the converted body that the flags select, and unwraps to it if wrapped |
| WorkLoops.PublishedConcat | src/devicethread.cpp:473-535 | what is published for a sequence of messages is what is published for its parts, in order |
| WorkLoops.ConvertibleConcat | src/devicethread.cpp:489-493 | so are the messages that convert |
| WorkLoops.PolledConcat | src/devicethread.cpp:547-565 | the polling loop handles every message fetched, in order |
| WorkLoops.ReceivedConcat | src/devicethread.cpp:473-480 | the blocking loop handles every message received, in order |
| WorkLoops.WrappedMessagesUnwrap | src/devicethread.cpp:513-524 | without measurement translation every published message of at most 8 bytes unwraps to the converted one, from either loop |
| WorkLoops.LevelIILoop | src/devicethread.cpp:788-824 | every event read is normalised and published with its payload untouched; what stays live is exactly what failed reads left |
| WorkLoops.FramesConcat | src/devicethread.cpp:788-824 | the Level II loop publishes every event read, in order |
| WorkLoops.NormaliseInPlace | src/devicethread.cpp:800-813 | the in-place normalisation leaves the frame of `Normalise` |
| Directories.CreateDirectoryRecursive | src/mqttvscpd.cpp:108-137 | terminates; true if and only if every prefix is there and found, or can be made; only a leading run of prefixes is added; every attempt finds its parent; false comes with the first prefix that fails |
| Directories.ExtendedTree | src/mqttvscpd.cpp:118-134 | adding a run of prefixes keeps the tree a tree, keeps what was there, and adds nothing but directories of that run |
| Directories.PassesIff | src/mqttvscpd.cpp:122-132 | a prefix that is there fails only if stat misses it and creating it is refused, one that is not if creating it is refused or a file stands above it |
| Directories.NamesGrow | src/mqttvscpd.cpp:118-121 | a trailing slash changes nothing in what a path names, a component after a slash adds exactly that component |
| Directories.NextNames | src/mqttvscpd.cpp:119-120 | from one slash to the next the named path grows by at most one component, for repeated and trailing slashes too |
| Heartbeat.MainLoop | src/controlobject.cpp:1045-1071 | the loop's heartbeats are those of the rule "more than 60 seconds since the saved time" |
| Heartbeat.BeatsApart | src/controlobject.cpp:1055-1058 | heartbeats are at least 61 seconds apart and the first comes at least a second after the start |
| Heartbeat.BeatsAreReadings | src/controlobject.cpp:1058 | the saved times are readings of the run |
| Heartbeat.BeatsBounded | src/controlobject.cpp:1045-1071 | k heartbeats up to time t imply 61 k <= (t - t0) + 60 |
| Heartbeat.BoundIsTight | src/controlobject.cpp:1046-1055 | a run that meets the bound with equality |
| Heartbeat.FiresInTime | src/controlobject.cpp:1050-1065 | with readings at most d seconds apart no turn finds the saved time more than 60 + d seconds old |
| Tokens.TokenTables.LoadTypes | src/controlobject.cpp:585-593 | after any rows the table agrees with a plain scan for all 16-bit identifiers |
| Tokens.TokenTables.LoadClasses | src/controlobject.cpp:563-571 | the same for the class table |
| Tokens.TokenTables.GetTokenFromTypeId | src/controlobject.h:206 | a lookup returns the table's token, inserts an empty one if there is none, and is invisible to every later lookup |
| Tokens.KeyInjective | src/controlobject.cpp:589 | the packed 32-bit key separates all pairs of 16-bit identifiers |
| Tokens.ScanTypesIsLast | src/controlobject.cpp:585-593 | the scan returns the last matching row's token |
| Tokens.ScanTypesMisses | src/controlobject.cpp:585-593 | the scan returns the empty string if no row matches |
| Tokens.ScanClassesIsLast | src/controlobject.cpp:563-571 | the scan of class rows returns the last matching row's token |
| Tokens.ScanClassesMisses | src/controlobject.cpp:563-571 | it returns the empty string if no row matches |
| Tokens.TruncateKeeps16 | src/controlobject.cpp:564 | the 16-bit conversion keeps 16-bit values and is periodic otherwise |
| DeviceList.Devices.RunAndCleanUpTwice | src/controlobject.cpp:1353-1405 | the main thread's record of its threads over start and both cleanups: one join for each created thread, every enabled item stopped twice, and nothing left for the second (with threads running: LifecycleSafety.JoinedExactlyOnce) |
| DeviceList.Devices.StopAll | src/controlobject.cpp:1388-1405 | every enabled item is asked to quit and every started one joined |
| DeviceList.Devices.StartAll | src/controlobject.cpp:1353-1382 | exactly the enabled items whose thread creation succeeds are started |
| DeviceList.DeviceItem.StartDriver | src/devicelist.cpp:210-233 | the thread is on record exactly if it was created; false only for a failed creation |
| DeviceList.DeviceItem.StopDriver | src/devicelist.cpp:239-263 | an enabled item is asked to quit and its thread joined if there is one; a disabled one is untouched |
| DeviceList.Devices.AddItem | src/devicelist.cpp:350-398 | an existing driver file puts one new enabled item with all its settings, not asked to quit and without a thread, at the end of the list; otherwise nothing changes |
| DeviceList.Devices.FindByName | src/devicelist.cpp:435-450 | the first item with the name, or none if there is none |

## Left out

- LifecycleTermination.ShutdownTerminates: assumes strong fairness, because POSIX mutexes promise no order among waiters; and that every driver, broker and database call returns.
- LifecycleProgress.NoDeadlock: a thread waiting for the outcome of connect counts as able to step, because connect may still succeed; connect, read and write are steps that return.
- LifecycleDestruction.CallbacksFindMutexIff: whether the MQTT client's own destructor waits for callbacks is not part of this model; the device mutex is gone before that destructor runs.
- LifecycleRaces.RaceFreeIff: covers the driver level and the handle; the entry points are written before connect and the quit flag is atomic.
- WorkLoops.LoopsAgree: takes the helper library's conversions as functions of the message and of class, type and payload; time stamps and the header of the two loops are not compared.
- WorkLoops.LevelIILoop: the time block's fields and the nanosecond stamp are separate fields; the header that would say whether they overlap is not part of this model.
- Directories.CreateDirectoryRecursive: whether stat finds a name that is there, and whether mkdir is refused, is fixed for each name during a call; `.` and `..` and symbolic links are ordinary names; the one interference modelled is another process creating the same directory first.
- DeviceList.Devices.RunAndCleanUpTwice: sequential, a join is one step; the device threads are those of the life cycle.
- Discovery.ControlObject.Insert: an INSERT takes effect entirely or not at all and survives the end of the process, and GUID text compares by equality.
- The library bodies behind the daemon (GUID, date and event conversions, MQTT client, SQLite, logging, templates): arbitrary functions or answers.
- Dynamic symbol lookup: one step that finds all entry points or exits, with or without unloading the library.
- The send flag of an event is an arbitrary answer in the work loops; the code's `sendEvent` always returns true.
- The reverse token tables, lookup of an item by GUID, item counting and removal, text and JSON renderings: they add no property beyond those of the members here.
- Pausing a driver, the input queue and its semaphore: no thread of the repository reads them.
- Configuration reading, start-up publications, daemonising, signals, pid files, network addresses: input and output around the core.
