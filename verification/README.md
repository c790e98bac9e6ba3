# Verified model of bt2usb

bt2usb is firmware for a dongle that takes keyboards, mice and media remotes over Bluetooth
Low Energy and presents them to a host as one USB HID device. This project models the logic
under its asynchronous shell in Dafny and proves what that logic keeps, over every input,
every run and every interleaving of its tasks.

`dafny verify dfyconfig.toml` checks everything.

## The parts

**Connection slots and the user interface** (`Coordinator`, `Ui`, `Protocol` and the modules
built on them). One coordinator task owns a table of two slots, two slot workers hold the
links, and a UI task shows events and sends commands; bounded FIFO channels of 2, 2, 8, 4 and
8 places connect them. `Protocol` is the whole system as a step machine: one label is one
atomic step of one task, and a task blocked on a channel has no enabled label. The table and
the UI loop are also modelled as the classes the firmware has, each method proved against the
function the machine uses.

- `SlotInvariant` and `SlotRuns`: seen from one slot, every step of any task is one of ten
  local steps or none, and the local steps keep one invariant over table, both queues,
  planned actions and worker.
- `SlotTheorems`: a slot is occupied exactly when exactly one token of it exists; a settled
  slot agrees with its worker, device included; a Disconnect only ever takes down the link it
  was issued for; the event channel never fills; a coordinator waiting on a full command
  queue is never in a wait cycle with that worker, and needs the end of a connection attempt
  exactly if the worker is establishing a link.
- `Addresses` and `Boot`: no address is ever held twice in a run exactly if its boot scan
  does not clash, starting from the store that the peers come from.
- `Persistence` and `Recency`: every connected slot's device is handed to the store, a save that
  goes through brings it back at the next boot, and exactly when boot then reconnects it.
- `UiRuns` and `UiTheorems`: folding the events published and about to be published over the
  UI's state gives the coordinator's truth, in every state of every run; the connection and the
  name shown, the selection and the row-to-device correspondence follow.
- `Continuations` and `Picks`: from which reachable states the coordinator can get to the end of
  its work, and in which a queued pick is safe in every continuation, both as exact conditions.
- `Requests` and `Outcomes`: a request ends exactly the links it should, and those do end; a
  failed attempt is told to the UI as what it was.
- `Deadlock`, `Hang`, `StaleRow`, `SharedAddress` and `Freeze`: five things that go wrong, each
  by a run.

**The report path** (`Reports`, `Coalescer`, `ReportPath`). The merging buffer as a class, and
producer, drain, wake signal and channel as a step machine over every interleaving.

**The pairing store** (`Utf8`, `Codec`, `Buffers`, `Framing`, `Store`). Byte formats, the
length-prefixed blob with rollback, the legacy format, and the cache with its dirty flag over
flash, written in place on buffers as the firmware does.

**Byte-stream parsers and planner** (`ReportDescriptor`, `Advertising`, `Scanner`,
`Reconnect`). Each loop is proved against a declarative reading of its input.

`Traces`, `Moves` and `Chains` hold the composition of executions and runs that the others use.

## Findings

Where code and documentation differ, the model follows the code.

- The UI and the coordinator can deadlock. The UI blocks on `BLE_CMD_CHANNEL` (4 places)
  while the coordinator blocks on `BLE_EVENT_CHANNEL` (8 places) that only the UI empties.
  It is decided exactly when the UI is stopped and the events still to be published do not fit:
  before that the coordinator can always get to the end of its work, after that never
  (`Continuations.IdleReachableIff`). `Deadlock.NoStepMeans` tells when both are at a stop,
  `Deadlock.StuckRunsOn` that the deadlock is permanent, `Deadlock.DeadlockIsReachable` that it
  happens: boot scan and both stored links fail, the user asks for a scan, answers five failures
  on the screen with a press each, and the scan finds eight devices. In that run the coordinator
  takes a slot event only while no command is queued, as its biased `select` does.
- The coordinator hangs on a peer that does not answer. A worker reads no commands while it
  establishes a link, its queue has two places, and a StartScan with both slots taken sends a
  Disconnect to each. Two stored peers that are off and three requests for a scan are enough
  (`Hang.HangIsReachable`); until the attempt ends nothing frees the coordinator
  (`Hang.HangsUntilOutcome`), and then two steps of that worker do
  (`SlotTheorems.FullCommandQueueDrains`).
- The row picked on screen is not always the device connected: a StartScan queued ahead of
  the Connect replaces the list (`StaleRow.PickCanGoStale`). A queued pick is safe in every
  continuation exactly if no StartScan is ahead of it, no scan is under way and its row is right
  (`Picks.PickIsSafeIff`); with a StartScan ahead any device can end up in the row.
- The screen can freeze. A pick whose address a slot holds already is ignored without an event,
  but the UI has gone to Scanning with it, where no button does anything. Whenever nothing is
  asked for, planned or published on that screen, the last request taken was a pick, ignored or
  still being tried (`Freeze.ScanningMeansPick`); at rest it was ignored
  (`Freeze.FrozenMeansIgnored`), and only the loss of a live link goes on from there
  (`Freeze.FrozenUntilLinkLost`). Picking a connected device that still advertises is enough
  (`Freeze.FreezeIsReachable`).
- Boot can reserve one address for both slots although the planner never gives one scan
  result to two peers: the second peer falls back to its stored address, and the first may
  have been resolved to just that (`Reconnect.BootCollidesIff`). Every such scan leads to a run
  that ends with both slots held by one address (`SharedAddress.ClashSharesAddress`).
- `src/hid/coalesce.rs` promises that coalescing preserves total mouse travel. Over a run it does
  so at every moment exactly if no batch ever has a partial sum outside the `i8` range
  (`ReportPath.TravelConserved`). The delivered total of one batch is right exactly if what was
  cut off at the two ends cancels (`Reports.TravelAccounted`): two moves of 100 lose 73 counts
  (`Reports.SaturationLosesTravel`), while opposite moves can make up for each other
  (`Reports.CutsCanCancel`).
- A bond goes to the first stored entry that has its address or that its key resolves
  (`Persistence.BondReachesEntry`). A keyboard paired twice under rotating addresses is stored
  twice, its newer entry without the bond, and the next boot spends both slots on it
  (`Recency.PairedTwiceHoldsTwoSlots`).
- A failed flash read leaves an empty cache that counts as clean. Over a run a clean cache always
  equals flash exactly if every failed read met an item that held no device
  (`Store.CoherentUnlessReadFails`); otherwise the next device that is saved replaces all the
  others (`Store.FailedLoadThenSaveForgets`).
- An ordinary mouse descriptor is not recognised as a mouse, because Collection resets the
  usage. It is recognised exactly if some Input item on the Generic Desktop page has Mouse or
  Pointer as the last Usage since the previous Main item (`ReportDescriptor.MouseFlaggedIff`).
  The firmware's own mouse descriptor is read as a consumer device
  (`ReportDescriptor.OwnMouseIsConsumer`).
- `src/ble/multi_conn.rs` means to reconnect the most recently used devices. A known device keeps
  its place in the store, so the device used last is reconnected first exactly if it was new or
  the last entry, and at all exactly if it was new or one of the last two
  (`Recency.UsedDeviceIsReconnectedIff`). With three devices paired in order, using the first one
  again leaves it out (`Recency.UsedAgainIsForgotten`).

## Model

| member | source | states |
|---|---|---|
| SlotTheorems.OneTokenPerOccupancy | src/ble/multi_conn.rs:245-294 | In every state of every run a slot is occupied in the table if and only if exactly one token of it exists: a Connect planned, queued or put off, a busy worker, or an unprocessed last event. There are never two. |
| SlotTheorems.SettledSlotAgrees | src/ble/multi_conn.rs:347-397 | When no command or event of a slot is under way, the table entry is determined by the worker: connecting to d if it establishes d, connected to d if it runs d, free if idle. |
| SlotTheorems.OnlyOwnDisconnectInterrupts | src/ble/multi_conn.rs:497-503 | Every command queued or planned for a running worker is a Disconnect of its own occupancy, so a late Disconnect never takes down a later link, and no worker ever puts off a Connect. |
| SlotTheorems.EpochsCountOccupancies | src/ble/coordinator.rs:119-148 | The occupancy number of a slot changes only when a free slot is reserved, and then by one; no slot becomes occupied without it. |
| SlotTheorems.WorkersNeverWaitToReport | src/main.rs:88-89 | At most two events per slot and four in all are queued, so a worker that wants to send an event can do so at once. |
| SlotTheorems.FullCommandQueueDrains | src/ble/multi_conn.rs:399-410 | When the coordinator waits for room in a command queue, at most two steps of that worker alone make its operation executable if and only if the worker is not establishing a link; if it is, any end of the attempt, which is possible at once, and two more of its steps do. |
| SlotTheorems.TerminalsOf | src/ble/multi_conn.rs:378-392 | A slot has at most two events queued and a last event among them exactly if its worker is idle with events left; then the slot is occupied. |
| SlotInvariant.RunningReceives | src/ble/multi_conn.rs:497-503 | The next command of a running worker is a Disconnect with the epoch of its link. |
| SlotInvariant.ReserveKeeps | src/ble/coordinator.rs:120-129 | Reserving a free slot and planning its Connect keeps the slot invariant, stale Disconnects still queued in front included. |
| SlotInvariant.PlanDisconnectKeeps | src/ble/coordinator.rs:255-265 | Planning a Disconnect for an occupied slot, however often, keeps the slot invariant. |
| SlotInvariant.TakeKeeps | src/ble/multi_conn.rs:359-395 | An idle worker that reads a command, be it a Connect or a stale Disconnect, keeps the slot invariant. |
| SlotInvariant.InterruptKeeps | src/ble/multi_conn.rs:497-501 | A live link superseded by a command keeps the slot invariant. |
| SlotInvariant.AnnounceKeeps | src/ble/multi_conn.rs:485-490 | Sending Connected for an established link keeps the slot invariant. |
| SlotInvariant.ReportKeeps | src/ble/multi_conn.rs:377-392 | Sending the last event of a link, whatever ended it, keeps the slot invariant. |
| SlotInvariant.HandleKeeps | src/ble/multi_conn.rs:275-291 | The coordinator's processing of the oldest event of a slot keeps the slot invariant. |
| SlotInvariant.LocalStepKeeps | src/ble/multi_conn.rs:245-397 | Everything a step can do to a slot keeps the slot invariant. |
| SlotRuns.ProjectsToLocalStep | src/ble/multi_conn.rs:190-397 | Every step of the whole system acts on each slot as one of the local steps, and channels stay within their capacities. |
| SlotRuns.StepKeepsInvariant | src/ble/multi_conn.rs:190-397 | Every step of any task keeps the global invariant. |
| SlotRuns.RunKeepsInvariant | src/ble/multi_conn.rs:190-397 | The global invariant holds in every state of every run from boot. |
| Coordinator.ConnManager.constructor | src/ble/coordinator.rs:85-91 | A new table has two free slots. |
| Coordinator.ConnManager.FindEmptySlot | src/ble/coordinator.rs:93-95 | The first slot neither connected nor connecting; nothing exactly if both are taken. |
| Coordinator.ConnManager.ActiveSlots | src/ble/coordinator.rs:98-100 | The number of connected slots. |
| Coordinator.ConnManager.OccupiedSlots | src/ble/coordinator.rs:103-105 | The number of slots connected or connecting. |
| Coordinator.ConnManager.IsConnectedAddress | src/ble/coordinator.rs:113-117 | Whether an occupied slot holds the address. |
| Coordinator.ConnManager.ConnectedNames | src/ble/coordinator.rs:151-159 | The names of the connected slots in slot order. |
| Coordinator.ConnManager.ConnectionSummary | src/ble/coordinator.rs:163-178 | The text for no, one or two connected devices. |
| Coordinator.ConnManager.StartScan | src/ble/coordinator.rs:208-221 | Computes the planned actions of a StartScan; `DisconnectsMeaning` says which. |
| Coordinator.ConnManager.Connect | src/ble/coordinator.rs:224-252 | Computes reservation and actions of a Connect in place; `ConnectMeaning` says which. |
| Coordinator.ConnManager.Disconnect | src/ble/coordinator.rs:255-265 | One DisconnectSlot per occupied slot, in order, table untouched. |
| Coordinator.ConnManager.SlotConnected | src/ble/coordinator.rs:268-280 | The slot shows the device as connected; persist it, then publish the new summary. |
| Coordinator.ConnManager.SlotDisconnected | src/ble/coordinator.rs:283-296 | The slot is freed; publish AllDown if no slot is connected, else the new summary. |
| Coordinator.ConnManager.SlotError | src/ble/coordinator.rs:299-314 | The slot is freed; publish the error, then the status as for a disconnection. |
| Coordinator.FindEmptyMeaning | src/ble/coordinator.rs:93-95 | Slot i is found if and only if it is free and all slots before it are taken; none is found if and only if all are taken. |
| Coordinator.DisconnectsMeaning | src/ble/coordinator.rs:208-265 | For every table: a disconnection names exactly the taken slots, each once and in order; a scan names all slots if all are taken, and none as long as one is free. |
| Coordinator.ConnectMeaning | src/ble/coordinator.rs:224-252 | For every table and list: a missing row, or a full table with an address not held, is refused with ConnectFailed; a held address is dropped; otherwise the first free slot alone becomes connecting for the device of the row and its worker is told. |
| Coordinator.SummaryMeaning | src/ble/coordinator.rs:151-178 | Two connected slots give a fixed text, one its own name, none a fixed text; names are listed in slot order. |
| Coordinator.ReducersMeaning | src/ble/coordinator.rs:268-314 | For every table, slot number, device and tag: which slot entry results, with the others untouched, and which actions in which order: persist before the UI is told, the failure before the status, AllDown exactly if no slot is connected. |
| Addresses.ApartUnlessBootClashes | src/ble/multi_conn.rs:190-243 | With distinct stored peers: no address is ever claimed twice in a run, by slots or by reservations boot has decided on, if and only if its boot scan is not a clash. |
| Addresses.NoPeerHeldTwice | src/ble/coordinator.rs:236-250 | In a run without such a clash no two occupied slots and no two busy workers hold the same address. |
| Addresses.BusyWorkerHoldsSlot | src/ble/multi_conn.rs:367-376 | A busy worker works for exactly the address its slot holds. |
| Addresses.StepKeepsApart | src/ble/coordinator.rs:224-314 | A step keeps claimed addresses apart if and only if it does not end a clashing boot scan. |
| Boot.RecentPeers | src/ble/multi_conn.rs:193-205 | The loop yields the last two stored devices, newest first. |
| Boot.PeersMeaning | src/ble/multi_conn.rs:193-205 | At most two peers; peer k has address, name and last signal of the k-th stored device from the end. |
| Boot.StoredDeviceIsReserved | src/ble/multi_conn.rs:193-240 | Slot k is reserved for the k-th stored device from the end under its stored name, and without a match at its stored address with its last signal. |
| Boot.StoredPeersAreDistinct | src/storage.rs:381-385 | After any use of the store, the peers of boot have distinct addresses. |
| Boot.StoredPeersAreHeldOnce | src/ble/multi_conn.rs:190-243 | From store to radio: booting from a store with distinct addresses without a clash, no peer address is held by two slots or two workers. |
| Reconnect.ResolveReconnectTargets | src/ble/reconnect.rs:40-72 | The nested loops over the bitset compute the greedy plan over a set of claimed results. |
| Reconnect.ClaimScan | src/ble/reconnect.rs:59-66 | The inner loop finds the least unclaimed match and sets exactly its bit. |
| Reconnect.ClaimBit | src/ble/reconnect.rs:60-62 | Setting a bit of the word is adding a member to the set it represents. |
| Reconnect.PlanMeaning | src/ble/reconnect.rs:35-72 | Exactly min(peers, 2) targets, target k for peer k; each takes its least match not taken earlier, below min(scanned, 32), and none only if all its matches were taken earlier. |
| Reconnect.BootDevicesMeaning | src/ble/multi_conn.rs:226-238 | Slot k gets peer k under its stored name: at the live address and signal of its least match that no earlier peer took, or exactly as stored if earlier peers took them all. |
| Reconnect.BootCollidesIff | src/ble/multi_conn.rs:217-240 | Boot reserves distinct addresses if and only if it is not the case that the first peer's choice is advertised at the second peer's stored address and the second peer has no other match. |
| Reconnect.UnambiguousBootIsDistinct | src/ble/multi_conn.rs:217-240 | If no scan result matches both peers, boot reserves distinct addresses. |
| Reconnect.BootCanCollide | src/ble/multi_conn.rs:226-238 | A concrete scan on which boot reserves one address twice. |
| Persistence.PersistDevice | src/ble/multi_conn.rs:313-324 | Adds the device, attaches its bond if there is one, and saves; store and flash end up as the run of these operations says. |
| Persistence.PersistedSurvivesReboot | src/ble/multi_conn.rs:313-324 | If a write attempt succeeds, the next load lists the device under its address and name, with its bond unless the bond resolves an earlier entry, whatever the store held. |
| Persistence.BondReachesEntry | src/storage.rs:399-411 | A bond is written to the entry of its address, and to nothing else, exactly if it resolves no earlier entry; otherwise that entry is left alone. |
| Persistence.SavedLoads | src/storage.rs:226-271 | After a save with a successful attempt, needed or not, flash loads to the cached list up to RSSI. |
| Persistence.ConnectedIsHandedOver | src/ble/multi_conn.rs:276-280 | Behind every connected slot in every run is the event that connected it; the slot has not changed since and its device has been persisted since or is about to be. |
| UiRuns.RunKeepsAgreement | src/main.rs:343-410 | In every state of every run the pending events fit the UI's state one after the other, and folding them over it gives the coordinator's list, scan count and connection state. |
| UiRuns.StepKeepsAgreement | src/ble/multi_conn.rs:245-294 | Every step of any task keeps that agreement. |
| UiRuns.ReportFollowed | src/ble/scanner.rs:98-121 | The events of a finished scan list exactly its devices, or nothing if it failed, and end the scan. |
| UiRuns.ConsequenceFits | src/ble/coordinator.rs:268-314 | What a slot event makes the coordinator publish leaves the UI with the right connection state. |
| UiRuns.StartScanAgrees | src/ble/multi_conn.rs:251-259 | Taking up a StartScan, disconnections included, keeps the agreement: one ScanStarted is published first. |
| UiTheorems.LastStatusIsTrue | src/ble/coordinator.rs:268-314 | The most recent status event, shown, queued or planned, is AllDown or missing if and only if no slot is connected. |
| UiTheorems.DrainedFlagIsTrue | src/main.rs:380-398 | Once the UI has shown everything, its connection flag equals whether a slot is connected, and the name shown is the summary of the table. |
| UiTheorems.DrainedTextIsTrue | src/main.rs:380-398 | From radio to screen, in every run: with both slots settled and all events shown, the UI shows a connection exactly if some worker has a live link, under the name of the only connected device, or as two devices. |
| UiTheorems.ScanIsShown | src/main.rs:343-378 | Whatever was on the screen, the events of a whole scan leave the names found in order with the first row selected, or the error screen if nothing was found or the scan failed; the connection shown stays. |
| UiTheorems.SelectionIsARow | src/ui/ui_logic.rs:73-150 | On the device list, at every moment of every run, the selection is below the device count, which is the number of rows and at most eight. |
| UiTheorems.PressSends | src/main.rs:333-340 | A press sends a scan exactly for Select on the home, error and connected screens, a Connect of the selected row exactly for Select on the list, a disconnection exactly for Down on the connected screen, and nothing else; it is queued behind what was sent before. |
| UiTheorems.SelectPicksTheRow | src/ui/ui_logic.rs:73-140 | Select on the device list sends the index of the row displayed, and the device recorded with it bears the name in that row. |
| UiTheorems.PickedDeviceIsReserved | src/ble/multi_conn.rs:260-268 | If no scan has started beyond those the user had seen when picking, the coordinator holds that very device in the row; if some slot is free and the address is not held, the least free slot alone becomes connecting for it and a Connect of the new occupancy is planned for its worker. |
| UiTheorems.RunKeepsScreen | src/main.rs:311-378 | In every run the rows on screen are the devices listed, and every queued pick from the newest scan names the device the coordinator holds. |
| Ui.ButtonMeaning | src/ui/ui_logic.rs:73-140 | Which presses send which command; only commands change the screen, the list is dropped exactly with a new scan; on the list Up selects the row above and Down the row below while there is one, and nothing else but a scan moves the selection; what is redrawn and when. |
| Ui.PressMeaning | src/main.rs:311-341 | A press applied to the loop variables keeps the connection shown, and keeps the rows unless it asks for a scan. |
| Ui.RowsAreReached | src/ui/ui_logic.rs:97-113 | From any row n times Down goes n rows down and n times Up n rows up, stopping at the ends, with all else unchanged. |
| Ui.EventMeaning | src/main.rs:343-410 | Per loop variable: which events set it, and to what. |
| Ui.UiLoop.constructor | src/main.rs:261-265 | The loop starts on the home screen with nothing listed and no connection. |
| Ui.UiLoop.HandleButton | src/main.rs:311-341 | The button arm updates the loop variables and sends the command as `on_button` decides. |
| Ui.UiLoop.HandleEvent | src/main.rs:343-410 | Each event arm updates the loop variables as the shown view says. |
| StaleRow.PickCanGoStale | src/ble/multi_conn.rs:251-268 | For any two devices there is a run in which the user picked the row of the first and the coordinator is about to take the second for it. |
| Requests.RequestPlans | src/ble/multi_conn.rs:251-274 | In every run a disconnection taken up plans one Disconnect of the current occupancy for each taken slot; a scan plans them for all slots if all are taken, and none while a slot is free; the table stays as it is. |
| Requests.EndedLinkIsGone | src/ble/multi_conn.rs:347-397 | A request that ends the link of a slot takes effect: whenever the slot is settled later in the run, it is free or occupied anew, whatever happened in between. |
| Requests.StepLeaves | src/ble/multi_conn.rs:347-397 | No local step makes an occupancy that is on its way out stay. |
| Outcomes.FailureIsTold | src/ble/multi_conn.rs:377-392 | In every run, once the slot of a failed connection attempt is settled again, the coordinator has taken the failure up: it freed the slot and has the UI told this very tag first. |
| Outcomes.SupersedingConnectIsNext | src/ble/multi_conn.rs:383-391 | A Connect that superseded a link is what the worker does next, before reading its queue. |
| Picks.PickIsSafeIff | src/ble/multi_conn.rs:248-274 | For a pick queued in any reachable state: the request taken after those ahead of it is that very pick; it is taken in some continuation if and only if the state is not doomed; then it meets its device in its row in every continuation if and only if no StartScan is queued ahead of it, no scan is under way and the row is right now; and with a StartScan ahead, any device can be in the row by then. |
| Picks.ScanAheadReplacesRow | src/ble/multi_conn.rs:251-268 | From any state that keeps the invariants and is not doomed, a StartScan queued ahead of a pick lets any given device end up in the picked row. |
| Freeze.ScanningMeansPick | src/ble/coordinator.rs:224-252 | In every run: when the UI is on the scanning screen and nothing is asked for, planned or published, the last request taken was a pick, and its address was held and it was ignored, or the slot reserved for it is still connecting in that occupancy. |
| Freeze.StepExplained | src/main.rs:311-410 | Every step of any task keeps the reason why a UI waits on the scanning screen: a request on its way, an event or scan to come, or a pick ignored or tried. |
| Freeze.FrozenMeansIgnored | src/ble/coordinator.rs:236-239 | With all channels empty and every worker idle or on a live link, the scanning screen in a run means that the last pick was ignored. |
| Freeze.FrozenSteps | src/ui/ui_logic.rs:73-140 | In such a state exactly presses and the loss of a live link are possible, and a press changes nothing. |
| Freeze.FrozenUntilLinkLost | src/ui/ui_logic.rs:73-140 | From there any number of steps without the loss of a link leaves the state as it is. |
| Freeze.FreezeIsReachable | src/ble/coordinator.rs:236-239 | For any device some run from boot without stored peers ends frozen. |
| Hang.HangIsReachable | src/ble/multi_conn.rs:450-457 | For any two stored peers some run ends with the coordinator waiting to queue a Disconnect for slot 0 while that worker is establishing a link. |
| Hang.HangsUntilOutcome | src/ble/multi_conn.rs:450-457 | From there, in any continuation without the end of that attempt, the coordinator has taken no step. |
| Continuations.IdleReachableIff | src/ble/multi_conn.rs:245-294 | From a reachable state the coordinator can get to the end of its work if and only if it is not the case that the UI is stopped and more events are to be published than fit. |
| Continuations.DoomedForGood | src/main.rs:76-80 | Once that is the case it stays so in every continuation, with work left. |
| SharedAddress.ClashSharesAddress | src/ble/multi_conn.rs:217-240 | For any two stored peers and any clashing boot scan some run ends with both slots occupied under one address. |
| SharedAddress.AddressCanBeShared | src/ble/multi_conn.rs:217-240 | One advertisement at the second peer's stored address that resolves to the first peer is enough, whatever the two stored addresses. |
| Recency.UsedDeviceIsReconnectedIff | src/ble/multi_conn.rs:190-205 | After a device was connected and saved, the next boot reconnects it first if and only if it was new to the store or its last entry, and at all if and only if it was new or one of the last two. |
| Recency.UsedAgainIsForgotten | src/ble/multi_conn.rs:190-205 | Of three devices paired in order, the first, used again, is not reconnected. |
| Recency.PairedTwiceHoldsTwoSlots | src/storage.rs:399-411 | From a blank store, one device paired under two addresses that its key resolves is stored twice, the newer entry without bond, and both peers of the next boot are that device. |
| Deadlock.NoStepMeans | src/main.rs:76-89 | In a reachable state neither coordinator nor UI can step if and only if they are stuck on each other's full channels, or the UI waits for the coordinator and the coordinator for a worker to read a command. |
| Deadlock.StuckRunsOn | src/main.rs:339-339 | A stuck state stays stuck at every later point of the run, with the same screen, table and work, whatever the workers do. |
| Deadlock.StuckForGood | src/ble/scanner.rs:113-117 | In a stuck state only worker steps are enabled, and they leave it stuck. |
| Deadlock.StuckIsDoomed | src/main.rs:76-80 | A stuck state is doomed, and a doomed one is stuck once the event channel is full and an event is next. |
| Deadlock.DeadlockIsReachable | src/ble/multi_conn.rs:190-294 | For any two stored peers and any eight distinct advertising devices some run ends in a stuck state. |
| Scanner.Scan | src/ble/scanner.rs:31-121 | At most eight HID devices with pairwise distinct addresses in order of first appearance, each with the name and RSSI of that advertisement; a list that is not full misses none. |
| Reports.MergeExactIff | src/hid/mouse.rs:89-97 | Along one axis a merged batch is exact at every stage if and only if no partial sum leaves the i8 range. |
| Reports.TravelAccounted | src/hid/mouse.rs:89-97 | A batch delivers its true travel less what was cut off at the upper end and plus what was cut off at the lower end, so its total is right if and only if the cuts cancel; nothing is cut if and only if no partial sum leaves the range. |
| Reports.CutsCanCancel | src/hid/mouse.rs:89-97 | A batch that leaves the range and still delivers its true total. |
| Reports.SameSignClamps | src/hid/mouse.rs:89-97 | A batch of same-signed deltas is delivered as the clamp of its true sum. |
| Reports.NewestButtons | src/hid/mouse.rs:89-97 | The delivered buttons are the newest of the batch. |
| Reports.SaturationLosesTravel | src/hid/coalesce.rs:21-23 | Two moves of 100 are delivered as 127. |
| Coalescer.ReportCoalescer.constructor | src/hid/coalesce.rs:53-61 | A new buffer has nothing pending and the cursor at the keyboard. |
| Coalescer.ReportCoalescer.Push | src/hid/coalesce.rs:64-75 | Latest wins for keyboard and consumer, mouse reports are merged; nothing else changes. |
| Coalescer.ReportCoalescer.Pop | src/hid/coalesce.rs:79-93 | The loop returns what the round-robin function returns and leaves its buffer. |
| Coalescer.PopMeaning | src/hid/coalesce.rs:79-93 | Nothing is returned if and only if nothing is pending, and then the cursor is unchanged; otherwise the pending endpoint nearest from the cursor is returned and cleared, and the cursor moves behind it. |
| Coalescer.PopApproaches | src/hid/coalesce.rs:79-93 | A pop serves a pending endpoint or brings the cursor strictly closer to it. |
| Coalescer.ServedWithinDistance | src/hid/coalesce.rs:64-93 | Whatever is pushed in between, a pending endpoint is served within its distance from the cursor plus one pops, at most three. |
| ReportPath.NoStuckKey | src/ble/hid_client.rs:339-368 | In every run the reports sent for keyboard and consumer are a subsequence of those classified, the newest classified is last among sent, in flight and pending, and it is the newest sent whenever the drain waits unsignalled. |
| ReportPath.NoLostWakeup | src/ble/hid_client.rs:356-368 | The drain never waits with work pending unless the wake signal is set. |
| ReportPath.WakesAreSpent | src/ble/hid_client.rs:339-368 | The drain does not spin: in every run it wakes at most once per notification. |
| ReportPath.PendingIsSent | src/ble/hid_client.rs:356-368 | What is pending for an endpoint at some point of a run has at most three reports ahead of it; once more than those ahead were sent, whatever was pushed in between, a report for that endpoint not taken before has been sent, and for keyboard and consumer it was the newest of its endpoint at some point since. |
| ReportPath.TravelConserved | src/hid/coalesce.rs:64-75 | On an axis, what was sent, is in flight and is pending adds up to what was classified in every state of a run if and only if no batch ever leaves the i8 range on it. |
| ReportPath.OutgoingAreBatches | src/hid/coalesce.rs:64-75 | In every run each outgoing mouse report is the merge of one batch of consecutive classified reports, and the batches make up everything classified. |
| ReportPath.SubsequenceMeaning | src/ble/hid_client.rs:339-368 | The relation used for what was sent: one list is the other with elements left out, that is, some increasing choice of places matches. |
| ReportPath.StepKeepsInvariant | src/ble/hid_client.rs:339-368 | Every step of producer, drain, other link and USB keeps the invariant of the path. |
| Utf8.Decode | src/storage.rs:131-161 | Strict decoding: what is accepted re-encodes to the same bytes. |
| Utf8.DecodeInverse | src/storage.rs:131-161 | Every string is recovered from its encoding. |
| Utf8.CharMeaning | src/storage.rs:89-103 | The bytes of a character carry its number in groups of six bits behind the lead byte of the shortest form (section 3 of RFC 3629). |
| Codec.AddressRoundTrip | src/storage/codec.rs:15-45 | Addresses survive the round trip; seven arbitrary bytes do if and only if their type byte is defined. |
| Codec.AddressLayout | src/storage/codec.rs:15-45 | Six address bytes, then the type as 0 to 4; every other type byte reads as random static. |
| Codec.BondRoundTrip | src/storage/codec.rs:47-83 | Every bond is recovered from its fifty bytes. |
| Codec.BondLayout | src/storage/codec.rs:47-83 | Where each field of a bond stands in its fifty bytes, the diversifier low byte first. |
| Codec.DeviceRoundTrip | src/storage.rs:106-174 | Every device is recovered from its record, name, RSSI and optional bond included. |
| Codec.DeviceLayout | src/storage.rs:89-128 | Where each field of a device stands in its record: address, signal in two's complement, name length, name, flag, bond. |
| Codec.DecodeBaseMeaning | src/storage.rs:131-161 | For any bytes: base fields are read if and only if they are all there; a malformed name reads as empty, a long one keeps what fits. |
| Codec.DecodeDeviceMeaning | src/storage.rs:163-174 | For any bytes: no flag or flag 0 means no bond; any other flag means the bond that follows, and no record if fewer than fifty bytes do. |
| Codec.EncodeDevice | src/storage.rs:106-128 | A record is never empty and at most 92 bytes. |
| Codec.NewPairedDevice | src/storage.rs:75-87 | Building a device accepts any name; the device has the address, the signal and no bond, and a name that fits is kept whole. |
| Codec.NewNameMeaning | src/storage.rs:75-87 | Of the first 32 characters of any name exactly those are kept, in order, that fit the 32 bytes behind the ones kept before them; a name of one-byte characters is cut to its first 32. |
| Codec.SerializeBaseInto | src/storage.rs:89-103 | Writes the base fields into the buffer front, or nothing if they do not fit. |
| Codec.SerializeInto | src/storage.rs:106-128 | Writes the record in place and returns its length; too short a buffer returns 0, possibly after the base fields were written. |
| Codec.SerializeMeaning | src/storage.rs:106-128 | What any slice holds afterwards: the record and its own rest, or the base fields and its own rest, or what it held. |
| Codec.DecodeBaseInverse | src/storage.rs:131-161 | Decoding the base bytes of any device, whatever follows them, gives back its address, RSSI and name and the number of bytes they took. |
| Codec.BaseReencodes | src/storage.rs:131-161 | Decoding drops nothing: from any bytes with a defined address type and a well-formed name that fits, writing the decoded device restores them. |
| Buffers.WriteAt | src/storage/codec.rs:36-54 | Copies bytes to a place of the buffer and changes nothing else. |
| Framing.Writer.New | src/storage/framing.rs:37-48 | Fails, leaving the buffer alone, exactly if the header does not fit; else an empty blob is begun. |
| Framing.Writer.Push | src/storage/framing.rs:56-70 | Accepts a record exactly if count, buffer and length prefix allow; a rejected one leaves the blob as it was even if the serializer scribbled. |
| Framing.Writer.Finish | src/storage/framing.rs:73-76 | The returned prefix of the buffer is the blob of the accepted records. |
| Framing.RecordReader.constructor | src/storage/framing.rs:84-91 | A reader is to yield the records of the data. |
| Framing.RecordReader.Next | src/storage/framing.rs:103-118 | Yields the remaining records one by one and stays exhausted once it returned nothing. |
| Framing.BlobRoundTrip | src/storage/framing.rs:56-118 | A finished blob followed by any junk is read back as exactly its records in order. |
| Framing.RecordsMeaning | src/storage/framing.rs:79-118 | For any bytes: behind magic and version the framed records are read up to the count, a zero length, or a record cut short; other bytes hold none. |
| Framing.BlobLayout | src/storage/framing.rs:37-76 | Byte for byte: 0xB2, 1, the count, and each record behind its length, one after the other. |
| Framing.TruncationYieldsPrefix | src/storage/framing.rs:79-118 | For any bytes, the records of a truncation are a prefix of the records of the whole. |
| Store.SaveThenLoad | src/storage.rs:274-308 | Saving and loading any list of at most four devices is the identity. |
| Store.BlobBound | src/storage.rs:48-50 | Any such list takes at most 375 of the 512 bytes. |
| Store.TruncatedLoad | src/storage.rs:288-340 | A truncated item, versioned or legacy, loads to a prefix of what the whole loads to. |
| Store.DamagedRecordIsSkipped | src/storage.rs:300-308 | An item with a record that cannot be decoded loads as if that record were not there. |
| Store.LegacyItemLoads | src/storage.rs:310-340 | An unversioned item, a count with the back-to-back records of that many devices and any junk, or of fewer and then nothing that could be one more, loads to exactly these devices without bonds, the first four. |
| Store.LegacyRecordsOf | src/storage.rs:310-340 | Unversioned records are split exactly where they were joined, up to the count or to where too few bytes are left. |
| Store.Loaded | src/storage.rs:195-223 | Loading never yields more than four devices. |
| Store.AddedMeaning | src/storage.rs:343-379 | Adding keeps addresses distinct and at most four; a known address is updated in place without losing its bond and marked dirty exactly if more than RSSI changed; a new one is appended, evicting the oldest only from a full cache. |
| Store.BondMeaning | src/storage.rs:399-411 | The first entry that has the address or that the key resolves gets the bond and nothing else changes; the cache becomes dirty exactly if that changes it. |
| Store.SavedMeaning | src/storage.rs:226-271 | A save leaves the devices alone and writes exactly if the cache is dirty and an attempt goes through; then flash loads to just these devices and the cache is clean. |
| Store.CoherentUnlessReadFails | src/storage.rs:195-271 | From a load of any flash content, over every run of loads, adds, bond updates and saves, failed reads and writes included: a clean cache equals what flash loads to, up to RSSI, after every operation if and only if every failed load met an item that holds no device. |
| Store.AlwaysCoherent | src/storage.rs:195-271 | So over every run whose reads succeed a clean cache equals what flash loads to, up to RSSI. |
| Store.FailedLoadThenSaveForgets | src/storage.rs:217-222 | After a failed read, adding a device and saving leaves it as the only one in flash, whatever flash held. |
| Store.AddressesStayDistinct | src/storage.rs:343-411 | Stored addresses stay pairwise distinct in cache and flash over every run. |
| Store.DeviceStore.constructor | src/storage.rs:187-192 | A new store is empty and clean. |
| Store.DeviceStore.LoadFromFlash | src/storage.rs:195-223 | Loads what the item means, or an empty cache if it cannot be read, and is clean. |
| Store.DeviceStore.DeserializeAll | src/storage.rs:288-298 | Appends what the bytes mean in either format to the list until it is full. |
| Store.DeviceStore.DeserializeVersioned | src/storage.rs:300-308 | Appends the decodable records until the list is full. |
| Store.DeviceStore.DeserializeLegacy | src/storage.rs:310-340 | Appends the records of the unversioned format until the list is full. |
| Store.DeviceStore.SerializeAll | src/storage.rs:274-286 | Leaves in the buffer the blob of the longest prefix of the list that fits. |
| Store.DeviceStore.SaveToFlash | src/storage.rs:226-271 | A clean cache is not written; a dirty one becomes clean exactly if one of the three attempts succeeds, and then flash holds the whole list. |
| Store.DeviceStore.Add | src/storage.rs:343-379 | The in-place update computes the new cache of the specification. |
| Store.DeviceStore.SetBondForAddress | src/storage.rs:399-411 | The in-place update writes the bond to the first entry that matches by address or key. |
| Store.Flash.StoreItem | src/storage.rs:243-262 | A write replaces the item or, failing, leaves it. |
| ReportDescriptor.Parse | src/hid/report_protocol.rs:185-316 | For any bytes: nothing if and only if no complete item declares a kind; otherwise exactly the declared kinds, each with the ID of its first declaring item that has a nonzero one. |
| ReportDescriptor.MachineMeaning | src/hid/report_protocol.rs:223-309 | An Input item declares a keyboard if and only if the most recent Usage Page is 7, a consumer device if and only if it is 12, a mouse if and only if it is 1 and the last Usage since the previous Main item is 1 or 2; a kind is flagged if and only if some item declares it. |
| ReportDescriptor.RegistersInEffect | src/hid/report_protocol.rs:265-309 | The machine's registers are the numbers of the most recent Usage Page, Report ID and, since the last Main item, Usage. |
| ReportDescriptor.ItemsOfEncoding | src/hid/report_protocol.rs:204-230 | Every encoded list of short items, followed by nothing or by an item cut short, is read back as its types, tags and little-endian values. |
| ReportDescriptor.ParseIsMonotone | src/hid/report_protocol.rs:204-307 | On any bytes cut anywhere, more bytes never clear a flag and never change a found ID. |
| ReportDescriptor.FoundIds | src/hid/report_protocol.rs:234-262 | A found ID is nonzero and implies its kind flag. |
| ReportDescriptor.MouseFlaggedIff | src/hid/report_protocol.rs:234-286 | A descriptor is flagged as a mouse if and only if some Input item on the Generic Desktop page has Mouse or Pointer as the last Usage since the previous Main item, Collection included. |
| ReportDescriptor.OwnMouseIsConsumer | src/hid/mouse.rs:111-155 | The firmware's own mouse descriptor, with any sizes, counts and ranges in it, is found to be a consumer device without report IDs and nothing else. |
| Advertising.ContainsHidServiceUuid | src/ble/adv_parser.rs:4-25 | The walk finds the HID service exactly if one of the complete structures announces it. |
| Advertising.AnyHidMeaning | src/ble/adv_parser.rs:12-21 | That is: some structure of type 2 or 3 has the bytes 0x12 0x18 at an even place. |
| Advertising.ExtractDeviceName | src/ble/adv_parser.rs:28-52 | The name is the longest character prefix, fitting 32 UTF-8 bytes, of the first name structure; without one it is Unknown. |
| Advertising.NameMeaning | src/ble/adv_parser.rs:28-52 | The name structure is the first of type 8 or 9, read one character per byte; without one the name is Unknown. |
| Advertising.LongestFit | src/ble/adv_parser.rs:37-44 | Pushing characters until one does not fit yields the longest prefix that fits. |
| Advertising.LongestFitIsUnique | src/ble/adv_parser.rs:37-44 | There is only one such prefix. |
| Advertising.StructuresOfEncoding | src/ble/adv_parser.rs:5-25 | Any encoded list of structures, followed by nothing, zero padding or a truncated structure, is walked as exactly that list. |

## Left out

- SoftDevice, radio, GATT discovery, pairing and bonding: establishing a link is a step that succeeds or fails as the environment decides, with no bound on when; only safety and bounded-step facts are stated about it.
- `IdentityKey::is_match`: an arbitrary predicate on addresses, or an arbitrary set of resolved pairs at boot.
- The flags bit that the radio library keeps in an address besides type and bytes is not part of this model.
- Flash wear, pages and retry delays: flash is one item whose write may fail and whose read returns the last item written or fails.
- Scan deadline and timeout: a radio scan ends with any result the scan callback can produce, or fails.
- Reconnect.HasBit: the 32-bit word of claimed results is a natural number below 2^32 handled by its binary digits; shifting and masking of machine words is represented by them.
- Framing.Writer.Push: the serializer closure is a function from the bytes of the slice to its new bytes and a count, so it cannot have other effects.
- ReportDescriptor.Parse: report size, report count and bit offset are dropped, since they never reach the result; the overflow their 16-bit arithmetic can run into on a debug build is therefore not modelled.
- Long items of report descriptors (section 6.2.2.3 of USB HID 1.11): the code has none.
- The look-up of a report kind by ID, report classification and the byte codecs of single reports: they branch once.
- Reports still pending when a link drops, and order between different endpoints: the code promises neither.
- The display, the power policy, button debounce and USB itself; a press that only wakes the display changes no modelled state.
- In the step machine PersistDevice is a step without effect on the channels; what it does to the store is stated in `Persistence`.
- The epochs of commands and workers and the list recorded by the UI task are history variables; they steer nothing.
- Liveness: no fairness of the scheduler is assumed, so nothing is said about what must eventually happen beyond the bounded steps and numbers of sends stated.
