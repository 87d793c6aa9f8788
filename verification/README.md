# Camera service verification

This project models the parts of the camera service whose correctness does not show in any one function, and proves
what they promise. There are four groups.

**The shared-memory frame ring and the preview that fills it.** `Layout` is the geometry of the segment: caps, wrapping
size arithmetic with its overflow tests, and the tiling of the segment into a header and `bufferCount` sections of four
channels. `Segment` says what each library operation does to the bytes of the segment; `CameraSharedMemory` is the
library object, updating an `array<byte>` that other processes may write too, and its methods are proved to do exactly
that. `RingHistory` shows that the bytes refine a history of frames, and `PeerInterference` what is left of a call when
peers store into the segment between its loads and stores. `FramePublication` is the preview as a state machine whose
steps are single byte copies and single stores, `PreviewIteration` shows that one turn of the preview loop is a run of
such steps, and `DevicePreview` holds the two objects of the HAL process, the droid plugin and the device controller,
with their whole set of start, stop and failure paths.

**Sessions.** `VirtualDevice` is one shared camera: handles, priorities, streaming and capture lists, the saved format,
and a HAL that may refuse any call, in which case the call has no effect. `VirtualDeviceRuns`, `CallLaws`,
`CaptureRuns` and `BackedHandles` say what each call leaves behind and undoes, how captures agree with the HAL, and
what every sequence of calls keeps. `Sessions` is the registry over all cameras, `SessionHealth` what every event keeps
of it, `SessionTeardown` the exactness of tearing down, `SessionLaws` and `SessionRuns` its calls and runs,
`Unplugging` and `LeftRegistered` what unplugging does and when it leaves nothing behind, and `StaleEntries` and
`StaleRegistrations` how an entry outlives its handle and a registration its device. `VirtualDeviceManager`,
`CommandManager` and `DeviceManager` are the objects themselves, with their loops, proved equal to the specification
functions.

**Thread protocols.** `SolutionWorker` is the job queue of a solution proxy, `CaptureStop` the race between a stop
request and a storage fault. Both are labelled steps of several threads in any order.

**Text and counting.** `AclText` and `CameraDacPolicy` print, parse and edit access-control rules, `SolutionSwitch`
switches solutions on and off, `WindowId` checks window identifiers.

Everything is stated for all inputs and all runs; the ring size, the word size of `size_t` (4 or 8 bytes), the frame
contents, the number of callers and the answers of the outside world are parameters. What the outside world answers
(file system, HAL process, display, random source, password file) arrives as arguments.

## Findings

Where the code does less than its comments, its own branches or its caller would suggest, the model follows the code,
a lemma gives the failing case, and the exact condition is proved.

- `validateGeometry` carries the comment that its caps keep the arithmetic from overflowing (lines 69-70 of
  `src/libs/camera_shared_memory/camera_shared_memory_impl.cpp`). That holds for a 64-bit `size_t`
  (`Layout.CapsSufficeOn64Bit`) and not for a 32-bit one (`Layout.CapsDoNotSufficeOn32Bit`); the overflow tests make
  `validateGeometry` right in both cases.
- A start of a continuous capture raises the flag before it stores the thread handle. A storage fault in between makes
  the monitor win the flag, find nothing to join, and leave the capture thread joinable for good
  (`CaptureStop.TheMonitorCanMiss`, `CaptureStop.MissedForGood`). The thread is joined exactly if the winner looks
  behind the assignment (`CaptureStop.JoinedIfAssigned`).
- Granting a user access a second time changes the rule again if the user had more than one group entry, and only then
  (`CameraDacPolicy.GrantIsIdempotent`).
- Counting matches accepts exactly the supported requests only while no two solutions share a name
  (`SolutionSwitch.AcceptsExactlySupported`), and the return code for a missing parameter cannot occur: the empty
  request counts as accepted (`SolutionSwitch.CameraSolutionManager.Switch`).
- When the HAL process refuses to be destroyed at the last close, the manager forgets the handle but the registry keeps
  its entry, while the device is marked closed (`StaleEntries.AnEntryStays` is such a run). An entry outlives its handle
  exactly if the handle is open and the last one, the device lets itself be closed, and destroying the HAL answers
  neither OK nor "already closed" (`StaleEntries.EntryOutlivesHandle`); no other event does it
  (`StaleEntries.NextKnown`), and while no close meets that condition every entry stands for a registered handle on an
  open device (`StaleEntries.EntriesStandForHandles`).
- Unplugging a camera can leave a handle of it registered with a manager that another device still uses
  (`StaleRegistrations.ARegistrationStays` is such a run). It can happen exactly if the device is open, another device
  has entries at its node, and one of its registered handles there would have to be stopped first, or has lost its
  entry to an earlier teardown, or has no registered handle of another device beside it, so that closing it may be the
  physical close (`LeftRegistered.UnplugHealthy`). As long as no unplugging from a node is of that kind, every
  registered handle there is backed (`SessionRuns.BackedAtNode`); what the registry promises of its entries holds in
  every run (`SessionRuns.RegisteredMeansOpen`).
- A capture fault stops the capture for the handles its proxy noted, and only the handle that started the capture was
  noted. With two handles sharing it the other stays listed, the capture is believed to run, and new starts are granted
  without the HAL being asked (`CaptureRuns.OneStaysBehind`). A fault keeps list and HAL together exactly if every
  listed handle is listed once, usable and noted (`CaptureRuns.FaultInStep`); a stop exactly if it is not the last, or
  is requested and accepted; any other call exactly if it does not destroy the HAL with handles listed
  (`CaptureRuns.StepCaptureInStep`, and over runs `CaptureRuns.RunCaptureInStep`).
- A ring of one slot cannot publish atomically (`FramePublication.OneSlotIsNotEnough`); the service uses eight.

## Model

| member | source | states |
|---|---|---|
| Layout.AddOverflow | src/libs/camera_shared_memory/camera_shared_memory_impl.cpp:73-78 | The wrapped sum of two `size_t`, and whether the mathematical sum is representable |
| Layout.MulOverflow | src/libs/camera_shared_memory/camera_shared_memory_impl.cpp:77-77 | The wrapped product of two `size_t`, and whether the mathematical product is representable |
| Layout.ValidateGeometry | src/libs/camera_shared_memory/camera_shared_memory_impl.cpp:56-89 | Accepts exactly the geometries within the caps whose mathematical total is representable, and returns the mathematical section and total size |
| Layout.CapsSufficeOn64Bit | src/libs/camera_shared_memory/camera_shared_memory_impl.cpp:61-89 | With a 64-bit `size_t` the overflow tests never fire: the caps decide alone |
| Layout.CapsDoNotSufficeOn32Bit | src/libs/camera_shared_memory/camera_shared_memory_impl.cpp:61-89 | With a 32-bit `size_t` a geometry within every cap wraps |
| Layout.CopiesIsProduct | src/libs/camera_shared_memory/camera_shared_memory_impl.cpp:284-309 | The recursive section offset is the product of index and section size |
| Layout.FieldBounds | src/libs/camera_shared_memory/camera_shared_memory_impl.cpp:284-309 | Every size word and payload of every slot lies inside its section, and the section inside the segment |
| Layout.SectionsInOrder | src/libs/camera_shared_memory/camera_shared_memory_impl.cpp:284-309 | A section ends before any later one begins |
| Layout.RegionsTile | src/libs/camera_shared_memory/camera_shared_memory_impl.cpp:284-309 | Every byte of the segment lies in exactly one of the header and the eight fields of each section, and no region leaves the segment |
| Modular.ModuloIsRemainder | src/libs/camera_shared_memory/camera_shared_memory_impl.cpp:341-346 | The recursive slot arithmetic is the remainder |
| Modular.StepsAsRemainders | src/libs/camera_shared_memory/camera_shared_memory_impl.cpp:341-346 | The next and the previous slot are the two C++ modulo expressions |
| Segment.PutEffect | src/libs/camera_shared_memory/camera_shared_memory_impl.cpp:553-582 | Storing a channel puts size and bytes there and changes no other channel of any slot, nor the header |
| Segment.WriteEffect | src/libs/camera_shared_memory/camera_shared_memory_impl.cpp:530-585 | An accepted write stores each non-null buffer in its channel of the slot at the write index, keeps every other channel and the announced geometry, and moves the index one slot on; an index that is unset or corrupt counts as slot 0 |
| Segment.WriteKeepsSection | src/libs/camera_shared_memory/camera_shared_memory_impl.cpp:553-582 | A write leaves every other section byte-identical |
| CreatedSegment.CreateSegmentIsCreated | src/libs/camera_shared_memory/camera_shared_memory_impl.cpp:158-183 | A created segment shows no frame, empty slots, and a header that decodes to the geometry asked for |
| CreatedSegment.GeometrySurvivesWrites | src/libs/camera_shared_memory/camera_shared_memory_impl.cpp:229-282 | After any run of writes a peer still decodes the creator's geometry, which its own validation accepts |
| RingHistory.LatestIsLast | src/libs/camera_shared_memory/camera_shared_memory_impl.cpp:530-585 | What a slot should hold is the last non-null buffer among the accepted writes whose ordinal is congruent to the slot |
| RingHistory.RingRefinesHistory | src/libs/camera_shared_memory/camera_shared_memory_impl.cpp:530-585 | After create and any calls of write, accepted or rejected, the index counts the accepted ones modulo n (unset before the first) and every channel of every slot holds what the history says |
| RingHistory.ReadReturnsLastWrite | src/libs/camera_shared_memory/camera_shared_memory_impl.cpp:474-528 | readData fails before the first accepted write and afterwards returns exactly the last one's length and bytes |
| RingHistory.ReadIsExact | src/libs/camera_shared_memory/camera_shared_memory_impl.cpp:484-512 | A reader fails exactly if the index is unset or corrupt; otherwise it is given the slot before the index and the smaller of its size word and the capacity |
| RingHistory.RunIndex | src/libs/camera_shared_memory/camera_shared_memory_impl.cpp:553-582 | From any valid index, k accepted writes move it k slots on, modulo n |
| RingHistory.SectionSurvives | src/libs/camera_shared_memory/camera_shared_memory_impl.cpp:553-582 | The section the last frame stands in stays byte-identical over fewer than n accepted writes |
| RingHistory.ZeroCopyStable | src/libs/camera_shared_memory/camera_shared_memory_impl.cpp:502-512 | Everything behind the pointers of a readData, the size word included, is unchanged while fewer than n further writes are accepted, and the n-th reuses the slot |
| RingHistory.SelfStabilising | src/libs/camera_shared_memory/camera_shared_memory_impl.cpp:331-585 | Under arbitrary changes of header and size words by peers, an index-setting call leaves the index in the ring, a successful read stays in the segment with a length within capacity, and an accepted frame is read back exactly |
| PeerInterference.UndisturbedIsWhole | src/libs/camera_shared_memory/camera_shared_memory_impl.cpp:331-585 | One load and one store at a time, write, incrementWriteIndex and writeHeader have together exactly the effect of `Segment.Write`, `Segment.Increment` and `Segment.WriteHeader` |
| PeerInterference.CallIsBounded | src/libs/camera_shared_memory/camera_shared_memory_impl.cpp:331-585 | Peers cannot hold a call up: it returns after a number of own steps fixed at its start |
| PeerInterference.StoresStayInPlace | src/libs/camera_shared_memory/camera_shared_memory_impl.cpp:331-585 | Whatever peers store between any two of our loads and stores, the index is stored inside the ring, and every other store lies in one channel of the slot chosen when the index was loaded |
| PeerInterference.DisturbedWriteIsReadBack | src/libs/camera_shared_memory/camera_shared_memory_impl.cpp:474-585 | While peers store anything but the payloads of the slot being written, at any moment between the loads and stores of the write and of the read, the read gives that slot, a length within capacity and all bytes written; and the frame's length if the slot's size words are spared too |
| RingHistory.IncrementEffect | src/libs/camera_shared_memory/camera_shared_memory_impl.cpp:331-350 | incrementWriteIndex leaves an index in the ring, whatever it found; from a valid one the next slot, from an unset one slot 0; no byte but the index changes |
| RingHistory.CorruptIndexRestarts | src/libs/camera_shared_memory/camera_shared_memory_impl.cpp:341-346 | An index that is unset or corrupt counts as slot 0 to a write and becomes 0 by an increment |
| RingHistory.WriteHeaderEffect | src/libs/camera_shared_memory/camera_shared_memory_impl.cpp:352-380 | An accepted writeHeader stores the index and the slot's data size, and no other byte changes |
| CameraSharedMemory.CameraSharedMemory.ResetLocked | src/libs/camera_shared_memory/camera_shared_memory_impl.cpp:91-113 | The object returns to the state of a new one, and whatever mapping, descriptor and name its fields held are given back |
| CameraSharedMemory.CameraSharedMemory.Create | src/libs/camera_shared_memory/camera_shared_memory_impl.cpp:115-183 | A descriptor and a segment laid out as specified, or -1 exactly if the geometry or one of the system calls fails; from a reset object, the mapping, descriptor and name held afterwards are exactly those the fields say, so a failure holds none |
| CameraSharedMemory.CameraSharedMemory.LayOut | src/libs/camera_shared_memory/camera_shared_memory_impl.cpp:158-183 | The stores of create produce exactly the specified created segment |
| CameraSharedMemory.CameraSharedMemory.InitBuffers | src/libs/camera_shared_memory/camera_shared_memory_impl.cpp:284-309 | The loop lays the pointers of every slot at the offsets of the layout |
| CameraSharedMemory.CameraSharedMemory.ReadHeader | src/libs/camera_shared_memory/camera_shared_memory_impl.cpp:229-282 | A peer's header is accepted exactly when its geometry is valid and its total is mapped |
| CameraSharedMemory.CameraSharedMemory.InitShmem | src/libs/camera_shared_memory/camera_shared_memory_impl.cpp:229-282 | Private copies of an acceptable header, or no change at all |
| CameraSharedMemory.CameraSharedMemory.Open | src/libs/camera_shared_memory/camera_shared_memory_impl.cpp:211-282 | The announced geometry is adopted exactly when it is valid and mapped, and a refused open changes nothing; a reset object then holds exactly the mapping and descriptor its fields say |
| CameraSharedMemory.CameraSharedMemory.Close | src/libs/camera_shared_memory/camera_shared_memory_impl.cpp:321-329 | The object is reset, and if its fields named all it held it holds no mapping, descriptor or name |
| CameraSharedMemory.CameraSharedMemory.IncrementWriteIndex | src/libs/camera_shared_memory/camera_shared_memory_impl.cpp:331-350 | The mapped bytes change as `Segment.Increment` says |
| CameraSharedMemory.CameraSharedMemory.WriteHeader | src/libs/camera_shared_memory/camera_shared_memory_impl.cpp:352-380 | Refuses an index outside the ring or a size above capacity, otherwise changes the bytes as `Segment.WriteHeader` says |
| CameraSharedMemory.CameraSharedMemory.GetBufferList | src/libs/camera_shared_memory/camera_shared_memory_impl.cpp:382-410 | The four lists hold the payload offsets of every slot |
| CameraSharedMemory.CameraSharedMemory.ReadData | src/libs/camera_shared_memory/camera_shared_memory_impl.cpp:474-528 | Fails or hands out the pointers and lengths of `Segment.Read`; whatever calls of write led to the segment, it fails before the first accepted one, and afterwards the bytes behind each pointer are what the last one stored in that channel, the data with its exact length, and no pointer plus its size leaves the segment |
| CameraSharedMemory.ViewPointsIntoSlot | src/libs/camera_shared_memory/camera_shared_memory_impl.cpp:502-528 | Each pointer of a view, with its size, lies in the section of the slot read, and what stands behind it is that channel of the slot |
| CameraSharedMemory.ViewShowsLast | src/libs/camera_shared_memory/camera_shared_memory_impl.cpp:474-585 | After any run of writes every channel of the last accepted frame is found through its own pointer |
| CameraSharedMemory.ViewStaysGood | src/libs/camera_shared_memory/camera_shared_memory_impl.cpp:502-528 | What stands behind the pointers of a view is unchanged while fewer than n further writes are accepted |
| CameraSharedMemory.CameraSharedMemory.Write | src/libs/camera_shared_memory/camera_shared_memory_impl.cpp:530-585 | The four guarded copies change the bytes as `Segment.Write` says; a rejected write changes nothing |
| CameraSharedMemory.CameraSharedMemory.GetWriteIndex | src/libs/camera_shared_memory/camera_shared_memory_impl.cpp:757-769 | The index in the mapped header, -1 when nothing is mapped |
| FramePublication.StepKeeps | src/services/hal/device_controller.cpp:618-683 | Every single step of filling, annotating, storing the index, storing the size word and publishing keeps the pipeline invariant |
| FramePublication.PublicationIsAtomic | src/services/hal/device_controller.cpp:664-674 | In every state between two steps of any run with n of 2 or more, the one between writeHeader's two stores included, a reader gets the last published frame whole and never the slot being filled; before the first publication it fails or gets length zero |
| FramePublication.ReaderMayTakeItsTime | src/libs/camera_shared_memory/camera_shared_memory_impl.cpp:474-528 | A reader that took its pointers when f frames were out finds that frame whole until the producer begins frame f - 1 + n |
| FramePublication.OneSlotIsNotEnough | src/services/hal/device_controller.cpp:664-674 | With n of 1 the frame a reader was given is in the slot being filled |
| FramePublication.SlotAndCapacity | src/plugins/hal/droid/droid_camera_plugin.cpp:478-550 | Over whole runs frame f goes to slot f mod n, copies stay within the original capacity although lengths are overwritten, and writeHeader never refuses |
| PreviewIteration.TurnIsItsSteps | src/services/hal/device_controller.cpp:618-683 | One turn of the loop is exactly a run of small steps, so what holds between steps holds of the loop |
| PreviewIteration.TurnKeeps | src/services/hal/device_controller.cpp:618-683 | A turn keeps the invariant and publishes its frame, cut to capacity |
| PreviewIteration.TextsArePublished | src/services/hal/device_controller.cpp:640-674 | Behind a turn readers are given the slot of that turn, with the metadata and solution texts that fit; a text that does not fit leaves what was there |
| DevicePreview.DroidCameraPlugin.SetBuffer | src/plugins/hal/droid/droid_camera_plugin.cpp:202-230 | Keeps the service's array and notes the capacity of each slot once; refuses null |
| DevicePreview.DroidCameraPlugin.StartCapture | src/plugins/hal/droid/droid_camera_plugin.cpp:410-470 | Streams exactly when one of at most three attempts within the deadline succeeded |
| DevicePreview.DroidCameraPlugin.SetFormat | src/plugins/hal/droid/droid_camera_plugin.cpp:149-194 | NV21 only; the frame size is that of the width and height asked for, a running pipeline is rebuilt and streaming goes on only if that worked |
| DevicePreview.FrameSizeIsPlanes | src/plugins/hal/droid/droid_camera_plugin.cpp:169-170 | For even sides the computed frame size is the luma plane and two quarter planes exactly if three times the luma plane fits 32 bits |
| DevicePreview.DroidCameraPlugin.TeardownPipeline | src/plugins/hal/droid/droid_camera_plugin.cpp:389-408 | Neither pipeline nor streaming afterwards |
| DevicePreview.DroidCameraPlugin.GetBuffer | src/plugins/hal/droid/droid_camera_plugin.cpp:478-550 | Copies one sample into the next slot, cut at the noted capacity, touching only that slot's bytes and only while streaming |
| DevicePreview.DroidCameraPlugin.DestroyBuffer | src/plugins/hal/droid/droid_camera_plugin.cpp:554-564 | The plugin lets go of the array |
| DevicePreview.DeviceControl.StartPreview | src/services/hal/device_controller.cpp:732-861 | The stream is on exactly when everything succeeded, over a freshly created ring; every failure leaves the plugin idle and the buffers given back |
| DevicePreview.DeviceControl.StopPreview | src/services/hal/device_controller.cpp:863-915 | Stream off, plugin without buffers, buffers freed |
| DevicePreview.DeviceControl.SetFormat | src/services/hal/device_controller.cpp:1140-1162 | Keeps, through success and failure, that a streaming plugin writes into live buffers only |
| DevicePreview.DeviceControl.Close | src/services/hal/device_controller.cpp:717-730 | The same, through a close of the device |
| DevicePreview.DeviceControl.CloseShmemoryIfNeeded | src/services/hal/device_controller.cpp:1414-1433 | No buffer array and no segment afterwards |
| DevicePreview.DeviceControl.PreviewTurn | src/services/hal/device_controller.cpp:618-683 | A turn goes on exactly when the plugin streams and delivers, and moves the whole state as the pipeline model says |
| DevicePreview.DeviceControl.PreviewThread | src/services/hal/device_controller.cpp:604-697 | Whatever the texts of each turn, the frames published are the delivered samples, cut to capacity, in order, up to the first failure, and readers stay safe |
| DevicePreview.DeviceControl.PreviewInFormat | src/services/hal/device_controller.cpp:604-861 | After a format is set and the stream started, samples of the size of that picture are published whole, up to the first failure |
| DevicePreview.DeliveredWhole | src/services/hal/device_controller.cpp:618-683 | Samples within the capacity are delivered uncut |
| DevicePreview.DeviceControl.LiveIsReaderSafe | src/services/hal/device_controller.cpp:604-697 | A live preview shows readers whole frames |
| DeviceManager.DeviceManager.SetDeviceStatus | src/services/camera/device_manager.cpp:37-47 | Only the named device's status changes |
| DeviceManager.DeviceManager.AddDevice | src/services/camera/device_manager.cpp:135-185 | The device takes the lowest free id of 1..10, or none when all are in use |
| DeviceManager.DeviceManager.EraseDevice | src/services/camera/device_manager.cpp:204-206 | Exactly the named id is gone |
| DeviceManager.DeviceManager.FindUnplugged | src/services/camera/device_manager.cpp:227-241 | Exactly the ids of that type whose node is not listed |
| DeviceManager.DeviceManager.AddPlugged | src/services/camera/device_manager.cpp:247-259 | The adding loop gives the specified map: what is listed and not present joins, in order |
| DeviceManager.FreeId | src/services/camera/device_manager.cpp:153-164 | The lowest id of the range that is free, 0 exactly when none is |
| DeviceManager.UpdateKeeps | src/services/camera/device_manager.cpp:224-265 | Other types and surviving ids stay as they are, new entries are listed and closed, ids stay within 1..10 and nodes unique per type |
| DeviceManager.UpdateYieldsTheList | src/services/camera/device_manager.cpp:224-265 | Exactly the listed nodes afterwards if they fit; otherwise a subset and a full map |
| DeviceManager.UpdateIsIdempotent | src/services/camera/device_manager.cpp:224-265 | The same list again changes nothing |
| VirtualDeviceRuns.StepKeeps | src/services/camera/virtual_device_manager.cpp:150-529 | Every call with every answer keeps the books consistent |
| VirtualDeviceRuns.RunIsConsistent | src/services/camera/virtual_device_manager.cpp:150-868 | After any calls, with any HAL failures and device changes: the streaming list is duplicate-free and is exactly the handles in state STREAMING or PREVIEW, HAL clients are among them, at most one handle is primary, a non-empty capture list means a capture in progress |
| VirtualDeviceRuns.RunIsInStep | src/services/camera/virtual_device_manager.cpp:292-529 | While preview and client calls succeed, the HAL's clients are exactly the streaming handles and it previews exactly while there are any |
| VirtualDeviceRuns.PrimaryOwnsSettings | src/services/camera/virtual_device_manager.cpp:531-868 | While a primary exists, no other handle's call changes the saved format or reaches the HAL's setFormat or setDeviceProperty, and its captures use the saved width, height and pixel format |
| VirtualDeviceRuns.PrimaryRules | src/services/camera/virtual_device_manager.cpp:150-868 | Over any run in which the primary makes no call it stays primary, the saved format stays, and no setFormat, setDeviceProperty or capture in another format reaches the HAL |
| VirtualDeviceRuns.OpenElects | src/services/camera/virtual_device_manager.cpp:150-210 | A successful open without a wish leaves a primary, which is the new handle exactly if there was none; a wish is granted |
| VirtualDeviceRuns.PrimaryIsObeyed | src/services/camera/virtual_device_manager.cpp:531-594 | A primary's capture saves its format, and reaches the HAL unchanged exactly if it is one-shot or no capture is in progress; its setFormat reaches the HAL unchanged, and is saved exactly if the HAL accepts |
| CallLaws.StartStreams | src/services/camera/virtual_device_manager.cpp:292-378 | A start is granted exactly if the handle is open in an open device and the HAL refuses neither preview nor client; then the handle streams, last in the list and as a client of a previewing HAL, and nothing else changes; refused, only the HAL may have |
| CallLaws.StartAsks | src/services/camera/virtual_device_manager.cpp:292-378 | The HAL is asked for a preview by the first stream only, and then for the client, unless that was refused |
| CallLaws.StopAsks | src/services/camera/virtual_device_manager.cpp:380-469 | The HAL is asked to drop the client, and then to end the preview behind the last stream only; its answer is the code, and a refusal changes nothing |
| CallLaws.StopUndoesStart | src/services/camera/virtual_device_manager.cpp:292-469 | A stop gives back handles, priorities, the streaming list and the HAL clients and preview as they were before the start |
| CallLaws.PreviewGranted | src/services/camera/virtual_device_manager.cpp:471-508 | A preview is granted exactly if there is a window, the start is granted and the display starts; then the handle is in state PREVIEW; a refusing display leaves everything as before |
| CallLaws.PreviewUndone | src/services/camera/virtual_device_manager.cpp:471-529 | Stopping a granted preview gives everything back, or is refused with nothing changed when the display does not stop |
| CallLaws.CaptureAsks | src/services/camera/virtual_device_manager.cpp:531-655 | A capture asks the HAL for the caller's format if the caller is primary or nobody is, otherwise for the saved one at the caller's frame rate; it saves a primary's format only, and asks nothing when it joins a capture in progress |
| CallLaws.CaptureUndone | src/services/camera/virtual_device_manager.cpp:592-714 | Stopping a granted continuous capture gives back list, flag and HAL as they were before the start |
| CallLaws.FormatAsks | src/services/camera/virtual_device_manager.cpp:823-868 | A format is asked for and saved under the same privilege, and saved only if the HAL accepts |
| CallLaws.PropertyReaches | src/services/camera/virtual_device_manager.cpp:781-821 | A property reaches the HAL exactly if the handle is on an open device and nobody else is primary, with the code for every other case |
| CallLaws.CloseUndoesOpen | src/services/camera/virtual_device_manager.cpp:114-290 | Closing what an open granted gives back handles, priorities and device map, physically on both ways exactly if it was the first |
| CallLaws.OpenRefused | src/services/camera/virtual_device_manager.cpp:150-183 | A wish for the privilege that comes too late and an unknown device are refused before the HAL is asked, with nothing changed |
| CallLaws.OpenOutcome | src/services/camera/virtual_device_manager.cpp:114-210 | What the HAL is asked, how the device is marked and which code is returned, for every answer and with or without a free draw |
| CallLaws.UnusableIsRefused | src/services/camera/virtual_device_manager.cpp:292-868 | A handle that is unknown or whose device is closed is refused by every call with nothing changed, but for the format a capture may have saved |
| CallLaws.WrongStateIsRefused | src/services/camera/virtual_device_manager.cpp:212-469 | A call that does not suit the state of the handle is refused with its code and nothing changed |
| CallLaws.CloseOfGoneDevice | src/services/camera/virtual_device_manager.cpp:278-289 | A handle whose device is gone is forgotten by its close without the HAL |
| CallLaws.FirstFreeIsFirst | src/services/camera/virtual_device_manager.cpp:61-89 | The first draw that is free is taken, none exactly if none is free |
| CaptureRuns.StopTakesOne | src/services/camera/virtual_device_manager.cpp:657-714 | An allowed stop takes one occurrence of the handle off the list, asks the HAL to stop exactly if that was the whole list and the stop is requested, and marks the capture ended unless the HAL refuses |
| CaptureRuns.StepCaptureInStep | src/services/camera/virtual_device_manager.cpp:562-714 | Where list, flag and HAL agree on a continuous capture, a call keeps them so exactly if it neither empties the list without the HAL stopping nor destroys the HAL with handles on the list |
| CaptureRuns.FaultInStep | src/services/camera/camera_hal_proxy.cpp:52-58 | A capture fault keeps them so exactly if every handle on the list is there once, usable, and was noted by the proxy |
| CaptureRuns.RunCaptureInStep | src/services/camera/virtual_device_manager.cpp:562-714 | Over any calls, answers and faults, a continuous capture runs in the HAL exactly while the list is non-empty, at every moment, if and only if no event is of those kinds |
| CaptureRuns.OneStaysBehind | src/services/camera/camera_hal_proxy.cpp:52-58 | Two handles share a capture and the HAL gives up: one stays on the list, and a new start is granted without the HAL being asked |
| CaptureRuns.GrantedCaptureRuns | src/services/camera/virtual_device_manager.cpp:592-655 | While they agree, a granted continuous capture runs in the HAL and has its handle on the list |
| VirtualDeviceRuns.EraseFirstOf | src/services/camera/virtual_device_manager.cpp:409-461 | Erasing from a duplicate-free list removes that handle and no other |
| BackedHandles.TimelyClose | src/services/camera/virtual_device_manager.cpp:254-277 | The physical close is asked for when nobody streams and only the closing handle is registered |
| BackedHandles.LastCloseIsPhysical | src/services/camera/virtual_device_manager.cpp:252-289 | A close that is allowed asks for the physical close exactly if the handle is the last one registered; refused, nothing changes; granted, the handle is gone, the device is marked closed, and the code is that of destroying the HAL |
| BackedHandles.CallKept | src/services/camera/virtual_device_manager.cpp:292-868 | Calls other than open and close keep registrations and their devices, and leave the device map unchanged |
| BackedHandles.CloseKept | src/services/camera/virtual_device_manager.cpp:212-290 | A close keeps every remaining registration on its open device |
| BackedHandles.OpenKept | src/services/camera/virtual_device_manager.cpp:114-210 | An open adds at most the handle drawn, registers it only on an open device, and keeps every other registration |
| SessionRuns.NextHealthy | src/services/camera/command_manager.cpp:56-133 | Every event, a camera plugged in or unplugged included, keeps handles distinct in the registry, one manager per node, every manager sound, and every entry with a known handle registered on its own open device; at a chosen set of nodes it keeps that every registered handle is backed, if a device unplugged from there meets the condition of `LeftRegistered.UnplugHealthy` |
| SessionRuns.PhysicalCloseIsLast | src/services/camera/virtual_device_manager.cpp:254-277 | In every run in which a drawn handle is new to the registry, cameras coming and going at any time, no manager, in use or dropped, ever asks for a physical close while one of its handles streams or previews or another is registered |
| SessionRuns.RegisteredMeansOpen | src/services/camera/virtual_device_manager.cpp:185-210 | In every such run every entry whose manager knows its handle is registered there, on the entry's device, which is plugged in at the entry's node and open |
| SessionRuns.BackedAtNode | src/services/camera/virtual_device_manager.cpp:185-210 | Camera by camera: while every open device unplugged from the node meets, before it goes, the condition of `LeftRegistered.UnplugHealthy` (it is enough that no other device has entries there), every handle in the priority map of the manager in use there belongs to an open device at that node, whatever happens at other nodes |
| Unplugging.UnplugIsExact | src/services/camera/device_manager.cpp:187-222 | Unplugging removes exactly the device from the map, with the status of every other id as it was, and from the registry exactly the entries of the device if it was open |
| LeftRegistered.UnplugHealthy | src/services/camera/device_manager.cpp:197-206 | Whatever the HAL and the display answer, unplugging keeps what the registry promises, exactly if before it the device is closed, alone at its node, or each of its registered handles there is merely open, has an entry, and stands beside a registered handle of another device |
| LeftRegistered.AloneIsFree | src/services/camera/device_manager.cpp:197-206 | After releasing a device none of its handles is registered with a manager in use, whatever the answers, if the device was closed or no other device has entries at its node |
| StaleRegistrations.ARegistrationStays | src/services/camera/device_manager.cpp:197-206 | A run in which a handle stays registered with a manager in use, its device unplugged |
| Unplugging.UnplugsAreExact | src/services/camera/device_manager.cpp:242-245 | Unplugging several devices removes exactly these from the map, and exactly the entries of those that were open, whatever the HAL answers |
| SessionRuns.TeardownAnytime | src/services/camera/command_manager.cpp:440-499 | Teardown is exact after any run, with any unplugging before |
| SessionRuns.NamedClientIsTaken | src/services/camera/command_manager.cpp:400-462 | Once a handle is named for a client, tearing that client down takes its entry along with the client's others and no more, and with good answers the handle is gone from its manager |
| SessionLaws.OpenAddsEntry | src/services/camera/command_manager.cpp:56-108 | A granted open adds exactly one entry, with its handle, device, node and the manager of that node, a new one exactly if there was none; a refused one adds none and starts no manager |
| SessionLaws.CloseTakesEntry | src/services/camera/command_manager.cpp:110-133 | The entry of the handle goes exactly on the codes for closed and already closed; an unknown handle changes nothing |
| SessionLaws.RouteReaches | src/services/camera/command_manager.cpp:175-308 | A call changes the manager of the entry of its handle as the call on it says, and no other manager |
| SessionLaws.RouteUnknown | src/services/camera/command_manager.cpp:175-308 | A call with a handle that has no entry changes nothing |
| SessionLaws.BeforeIsLexicographic | src/services/camera/command_manager.cpp:90-90 | The order of the registry is the lexicographic order of the nodes |
| StaleEntries.EntryOutlivesHandle | src/services/camera/command_manager.cpp:110-133 | A close leaves an entry whose handle is forgotten exactly if the handle is open and the last registered, the device lets itself be closed, and destroying the HAL fails with anything but "already closed" |
| StaleEntries.NextKnown | src/services/camera/virtual_device_manager.cpp:254-289 | An event that finds every entry with a known handle leaves it so exactly if it is not such a close |
| StaleEntries.EntriesStandForHandles | src/services/camera/command_manager.cpp:56-133 | Over runs without such a close every entry stands for a registered handle on its own open device |
| StaleEntries.AnEntryStays | src/services/camera/virtual_device_manager.cpp:254-289 | A run of one open and one close that leaves an entry without a handle, its device marked closed |
| SessionTeardown.TeardownRegistry | src/services/camera/command_manager.cpp:440-499 | Whatever the answers, exactly the matching entries go and the others stay in order |
| SessionTeardown.NobodyRemains | src/services/camera/command_manager.cpp:464-479 | A crash leaves no entry |
| SessionTeardown.TeardownIsExact | src/services/camera/command_manager.cpp:440-499 | Exactly the matching entries go, whatever the answers; with good answers every manager loses exactly the matching handles from both maps and the streaming list, and every other handle keeps state, priority and streaming membership |
| SessionTeardown.StopAndCloseClears | src/services/camera/command_manager.cpp:579-595 | With good answers, stopping and closing one entry removes its handle from its manager and leaves all others alone |
| SessionTeardown.ReleaseTouches | src/services/camera/command_manager.cpp:481-499 | Releasing a device changes the status of no other id, whatever the answers |
| VirtualDeviceManager.FindFirst | src/services/camera/virtual_device_manager.cpp:409-415 | The first position of the handle, and what erasing it gives |
| VirtualDeviceManager.VirtualDeviceManager.CheckAppPriorityMap | src/services/camera/virtual_device_manager.cpp:46-59 | Found exactly if some registered handle is primary |
| VirtualDeviceManager.VirtualDeviceManager.GetVirtualDeviceHandle | src/services/camera/virtual_device_manager.cpp:61-89 | The first usable one of a hundred draws that is unused here becomes an open handle; otherwise nothing changes |
| VirtualDeviceManager.VirtualDeviceManager.OpenDevice | src/services/camera/virtual_device_manager.cpp:114-148 | New state, device map and code are those of `VirtualDevice.OpenDevice` |
| VirtualDeviceManager.VirtualDeviceManager.Open | src/services/camera/virtual_device_manager.cpp:150-210 | New state, device map, handle and code are those of `VirtualDevice.Open` |
| VirtualDeviceManager.VirtualDeviceManager.Close | src/services/camera/virtual_device_manager.cpp:212-290 | New state, device map and code are those of `VirtualDevice.Close` |
| VirtualDeviceManager.VirtualDeviceManager.StartCamera | src/services/camera/virtual_device_manager.cpp:292-378 | New state and code are those of `VirtualDevice.StartCamera` |
| VirtualDeviceManager.VirtualDeviceManager.StopCamera | src/services/camera/virtual_device_manager.cpp:380-469 | New state and code are those of `VirtualDevice.StopCamera` |
| VirtualDeviceManager.VirtualDeviceManager.StartPreview | src/services/camera/virtual_device_manager.cpp:471-508 | New state and code are those of `VirtualDevice.StartPreview` |
| VirtualDeviceManager.VirtualDeviceManager.StopPreview | src/services/camera/virtual_device_manager.cpp:510-529 | New state and code are those of `VirtualDevice.StopPreview` |
| VirtualDeviceManager.VirtualDeviceManager.UpdateFormat | src/services/camera/virtual_device_manager.cpp:531-560 | Saved and effective format are those of `VirtualDevice.UpdateFormat` |
| VirtualDeviceManager.VirtualDeviceManager.StartCapture | src/services/camera/virtual_device_manager.cpp:562-655 | New state and code are those of `VirtualDevice.StartCapture` |
| VirtualDeviceManager.VirtualDeviceManager.StopCapture | src/services/camera/virtual_device_manager.cpp:657-714 | New state and code are those of `VirtualDevice.StopCapture` |
| VirtualDeviceManager.VirtualDeviceManager.CaptureFault | src/services/camera/camera_hal_proxy.cpp:52-58 | The loop over the noted handles has the effect of `VirtualDevice.CaptureFault` |
| VirtualDeviceManager.VirtualDeviceManager.SetProperty | src/services/camera/virtual_device_manager.cpp:781-821 | New state and code are those of `VirtualDevice.SetProperty` |
| VirtualDeviceManager.VirtualDeviceManager.SetFormat | src/services/camera/virtual_device_manager.cpp:823-868 | New state and code are those of `VirtualDevice.SetFormat` |
| CommandManager.CommandManager.FindEntry | src/services/camera/command_manager.cpp:29-39 | The first entry with the handle |
| CommandManager.CommandManager.FindAtNode | src/services/camera/command_manager.cpp:65-74 | An entry at the node, if there is one |
| CommandManager.CommandManager.InsertEntry | src/services/camera/command_manager.cpp:90-90 | The entry stands in front of the first entry with a greater node, the others stay in order |
| CommandManager.CommandManager.RemoveEntry | src/services/camera/command_manager.cpp:41-54 | The first entry with the handle is gone, the others stay in order |
| CommandManager.CommandManager.Open | src/services/camera/command_manager.cpp:56-108 | Registry, managers, device map and code are those of `Sessions.OpenSession`, with a new manager exactly when no entry is at the node |
| CommandManager.CommandManager.Close | src/services/camera/command_manager.cpp:110-133 | Registry, managers, device map and code are those of `Sessions.CloseSession` |
| CommandManager.CommandManager.Route | src/services/camera/command_manager.cpp:175-308 | The call reaches the manager of the first entry with the handle and no other |
| CommandManager.CommandManager.SetClientDevice | src/services/camera/command_manager.cpp:400-418 | Only the client name of that entry changes; it succeeds exactly if there is one |
| CommandManager.CommandManager.GetDeviceState | src/services/camera/command_manager.cpp:566-577 | The state of the handle in its manager, closed when it is unknown |
| CommandManager.CommandManager.StopAndCloseDevice | src/services/camera/command_manager.cpp:579-595 | Managers and device map are those of `Sessions.StopAndClose`; the registry stays |
| CommandManager.CommandManager.CloseClientDevice | src/services/camera/command_manager.cpp:440-462 | The erasing loop has the effect of `Sessions.Teardown` for that client |
| CommandManager.CommandManager.Release | src/services/camera/command_manager.cpp:481-499 | The erasing loop has the effect of `Sessions.Teardown` for that device |
| CommandManager.CommandManager.HandleCrash | src/services/camera/command_manager.cpp:464-479 | The erasing loop has the effect of `Sessions.Teardown` for everyone |
| CommandManager.CommandManager.RemoveDevice | src/services/camera/device_manager.cpp:187-222 | Releasing an open device and erasing it has the effect of `Sessions.WithoutDevice`; it succeeds exactly if the id is known |
| CommandManager.CommandManager.UpdateDeviceList | src/services/camera/device_manager.cpp:224-265 | With every open device that goes released on the way, the device map is exactly the specified reconciliation and the registry loses exactly the entries of the open devices that went |
| SolutionWorker.StepKeeps | src/services/hal/camera_solution_proxy.cpp:400-437 | Every step of worker, callers and stopper keeps queue, mutex, signal and accounting invariants |
| SolutionWorker.NoLostWakeUp | src/services/hal/camera_solution_proxy.cpp:485-529 | In every interleaving the queue holds at most one job, a waiting worker with a job has `job_ready` set unless the caller in the queue's section is just about to set it, and a sleeping worker with `job_ready` set has a notification coming |
| SolutionWorker.ProcessedExactlyOnce | src/services/hal/camera_solution_proxy.cpp:416-433 | Accepted jobs are processed once each, in order, each before the next is accepted, and the status is what the last processed job asked for |
| SolutionWorker.AcceptedAreRequests | src/services/hal/camera_solution_proxy.cpp:122-134 | Accepted are, in order, exactly the requests of the callers whose push found the queue empty |
| SolutionWorker.RequestsTakeEffect | src/services/hal/camera_solution_proxy.cpp:122-437 | At rest with a live worker the status is what the last accepted caller asked for, and there is one; a lone caller's request is what it shows |
| SolutionWorker.LateRequestIsKept | src/services/hal/camera_solution_proxy.cpp:122-134 | A request that finds the worker gone is kept for its next start and queues nothing |
| SolutionWorker.RunKeepsLate | src/services/hal/camera_solution_proxy.cpp:122-134 | Over runs, what is kept for the next start is the last request that found the worker gone |
| SolutionWorker.StoppedProcessesNoMore | src/services/hal/camera_solution_proxy.cpp:407-436 | Once told to stop, the worker processes at most the job it had already turned to |
| SolutionWorker.WorkShrinks | src/services/hal/camera_solution_proxy.cpp:400-437 | Every step other than dozing off, a spurious wake-up, a failing wait or the decision to stop uses up a bounded amount of work |
| SolutionWorker.RestMeansDone | src/services/hal/camera_solution_proxy.cpp:400-483 | When nothing is due, all callers have returned, a stop has been joined, and a live worker has processed all that was accepted |
| SolutionWorker.NothingHangs | src/services/hal/camera_solution_proxy.cpp:400-529 | From a start on an empty queue every interleaving runs out of due steps, and then everything is done |
| CaptureStop.StepKeeps | src/services/hal/device_controller.cpp:990-1008 | Every step of service, monitor and capture thread keeps the single winner, the lock, the quieting and the handing over of the thread |
| CaptureStop.AtMostOneStops | src/services/hal/device_controller.cpp:995-1005 | At most one thread takes the flag, only it stops, and the capture thread is joined at most once, by it, after it ended |
| CaptureStop.RequestStops | src/services/hal/device_controller.cpp:990-1008 | Whenever a stop request has returned, the flag is down and exactly one thread took it; if that was the service, monitor and capture thread had ended and the latter was joined before |
| CaptureStop.CaptureGoesOn | src/services/hal/device_controller.cpp:966-1005 | Unless a frame fails, the capture thread ends only after the flag was taken |
| CaptureStop.FailedFrameEnds | src/services/hal/device_controller.cpp:990-1008 | A frame that fails ends the capture thread for good |
| CaptureStop.RoundsPoll | src/services/hal/storage_monitor.cpp:39-57 | Each round of the monitor polls the storage once, in every interleaving |
| CaptureStop.OnlyFaultsStop | src/services/hal/device_controller.cpp:925-938 | The monitor goes for the flag only when it found the storage full and the flag up |
| CaptureStop.NoFaultNoMonitor | src/services/hal/device_controller.cpp:925-938 | Without a storage fault the service alone stops captures |
| CaptureStop.NobodyWaitsForever | src/services/hal/storage_monitor.cpp:39-107 | While a stop is under way the thread it depends on can move, its step shortens the way, no other step lengthens or redirects it, and the loser waits for nobody |
| CaptureStop.StopIsBounded | src/services/hal/device_controller.cpp:990-1008 | Once the flag is taken, the stop is over after a bounded number of steps of those it waits for |
| CaptureStop.JoinedIfAssigned | src/services/hal/device_controller.cpp:973-1005 | When a stop is over the winner has joined the capture thread exactly if it looked behind the assignment; a winning service thread always did |
| CaptureStop.TheMonitorCanMiss | src/services/hal/device_controller.cpp:976-977 | An interleaving in which the monitor wins before the assignment and nobody joins |
| CaptureStop.MissedForGood | src/services/hal/device_controller.cpp:976-1005 | From there no continuation joins the thread before the next start |
| AclText.SplitJoin | src/security/camera_dac_policy.cpp:53-65 | Non-empty lines without the delimiter survive joining and splitting |
| AclText.SplitThree | src/security/camera_dac_policy.cpp:176-177 | Three plain tokens come back, the last only if it is not empty |
| AclText.ParseOfLines | src/security/camera_dac_policy.cpp:173-216 | Parsing printed lines recovers the complete entries in order, and with complete entries only the whole rule |
| AclText.RoundTrip | src/security/camera_dac_policy.cpp:173-253 | A separator-free rule with a base user permission comes back from its text exactly if all entries have a name and a permission; without one only the blank rule does |
| CameraDacPolicy.GrantIsExact | src/security/camera_dac_policy.cpp:269-298 | The user's first user entry carries the granted permission, one group entry of the user goes, an empty mask is filled exactly if an entry was added or removed, everyone else's entries and the rest stay |
| CameraDacPolicy.GrantIsIdempotent | src/security/camera_dac_policy.cpp:269-298 | Granting twice is granting once exactly if the user had at most one group entry |
| CameraDacPolicy.SetAndReadBack | src/security/camera_dac_policy.cpp:173-298 | A granted rule that is set, read back and granted again is the same rule |
| CameraDacPolicy.CameraDacPolicy.Split | src/security/camera_dac_policy.cpp:53-65 | The getline loop yields the pieces of the specification |
| CameraDacPolicy.CameraDacPolicy.GetCurrentRule | src/security/camera_dac_policy.cpp:156-221 | The parsing loop yields the specified rule, a blank one when the directory cannot be read |
| CameraDacPolicy.CameraDacPolicy.CreateTextRule | src/security/camera_dac_policy.cpp:223-253 | The appended text is the specified lines joined by commas |
| CameraDacPolicy.CameraDacPolicy.GrantIn | src/security/camera_dac_policy.cpp:269-298 | The in-place edit of one rule is the specified grant |
| CameraDacPolicy.CameraDacPolicy.Prepare | src/security/camera_dac_policy.cpp:260-337 | Both rules are granted, or neither changes when the user is unknown |
| SolutionSwitch.AcceptsExactlySupported | src/services/hal/camera_solution_manager.cpp:139-157 | Up to 2^32 - 1 names the count accepts exactly the requests whose every name is supported, if and only if no two solutions share a name |
| SolutionSwitch.TooLongIsRefused | src/services/hal/camera_solution_manager.cpp:139-157 | A longer request is refused |
| SolutionSwitch.CameraSolutionManager.CountCandidates | src/services/hal/camera_solution_manager.cpp:139-153 | The nested loops count the equal pairs, saturating at 32 bits |
| SolutionSwitch.CameraSolutionManager.SetAll | src/services/hal/camera_solution_manager.cpp:159-168 | Each solution gets one request for every time it is named, the others none |
| SolutionSwitch.CameraSolutionManager.Switch | src/services/hal/camera_solution_manager.cpp:157-179 | All named solutions are set, so that their last request is the value, and the others left alone, exactly if the request is accepted; otherwise none is, and the code for a missing parameter is never returned |
| SolutionSwitch.CameraSolutionManager.EnableCameraSolution | src/services/hal/camera_solution_manager.cpp:135-180 | Each named solution is last asked to be enabled and no other is touched, or none is |
| SolutionSwitch.CameraSolutionManager.DisableCameraSolution | src/services/hal/camera_solution_manager.cpp:182-227 | Each named solution is last asked to be disabled and no other is touched, or none is |
| WindowId.IsValidWindowId | src/services/camera/preview_display_control.cpp:39-78 | Accepts exactly the prefix followed by one or more digits whose unbounded value lies in 1..INT_MAX, with an accumulator that never leaves an int |
| WindowId.NumbersRoundTrip | src/services/camera/preview_display_control.cpp:39-78 | The prefix followed by a number in decimal is accepted exactly if the number lies in 1..INT_MAX |

## Left out

- Words in the segment are taken to be little-endian, as on the platforms the service is built for.
- CameraSharedMemory.CameraSharedMemory.InitShmem: the mapping is one atomic look at the header; a peer that changes the header between its two reads is not modelled.
- CameraSharedMemory.CameraSharedMemory.Open: the same one look at the header.
- PeerInterference.StoresStayInPlace: the load and the store of a word are single steps, seen by everyone in program order; memory ordering between processors is not modelled.
- Signals and eventfds of the segment (`createSignal` to `waitForSignal`): system calls around a map of descriptors.
- DevicePreview.DeviceControl.PreviewTurn: no peer changes the segment during or between turns of one preview; interference by peers is covered for the library operations in `RingHistory.SelfStabilising` and `PeerInterference`.
- DevicePreview.DroidCameraPlugin.SetFormat: whether the pipeline could be built is an argument.
- `saveShmemory` and `capture`: which frame is saved after the first one is not promised by the code.
- The V4L2 plugin, GStreamer, the Luna bus, JSON and process spawning: foreign calls; their outcomes are arguments.
- `camera_hal_if.cpp` and `camera_base_wrapper.cpp`: a state check and a delegation per call.
- `previewDisplayControls`: whether a display starts or stops is an arbitrary answer; the list of display objects is not kept.
- `getProperty`, `getFormat`, `getFd`, `capture` and the solution calls of the session layer: a lookup and a delegation each.
- The add-on hooks and event notifications of the session layer have no effect on the modelled state.
- SessionRuns.PhysicalCloseIsLast: the handle an open actually draws is assumed new to the registry; the code compares draws within one camera's manager only. The same holds of the other statements about runs in `SessionRuns` and `StaleEntries`.
- CommandManager.CommandManager.Route: the credential check in front of startCapture, an access check by the file system, is left out.
- SolutionWorker.NothingHangs: one lifetime of the worker, started on an empty queue with the shared memory named; a restart with a job left in the queue is not modelled.
- SolutionWorker.ProcessedExactlyOnce: a request that finds a job in the queue is dropped by the code, so delivery of every request is not promised.
- CaptureStop.JoinedIfAssigned: from one start of a continuous capture to the next; what the next start does to a thread that was never joined is not modelled.
- Reading and setting access-control lists, `checkCredential` and the owner ids of a rule: system calls and access checks.
- File names, clocks, image writing and the auto-contrast and face-detection mathematics.
