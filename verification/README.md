# wlmanager: the frame pipeline, modelled and proved

wlmanager mirrors an Android display into a Wayland compositor. SurfaceFlinger
queues frames for a virtual display; a run loop takes each one, hands its native
handle to the compositor as a `wl_buffer`, and gives the frame back. This project
models that pipeline and proves, for every run, what reaches the surface and what
happens to every object on the way.

`dafny verify dfyconfig.toml` checks all of it.

## The model

**The compositor client.** `Wayland` holds the vocabulary and the wire form of a
native handle (`create_handle`, one `add_fd` per descriptor, `create_buffer`,
`destroy`) with a parser for it. `Compositor` is the server: it replays a
connection log entry by entry, keeps android_wlegl handles, buffers, double
buffered wl_surface state, xdg roles and configure serials, and stops at the first
protocol error. It is at least as strict as the protocol text: a buffer is refused
until a configure has been acknowledged, not merely sent. `WindowRun` is the client
at work, one library call at a time: the thread inside `initialize` or `pushFrame`
and the dispatch thread that `WaylandWindowManager.cpp:131-135` starts take turns
at every call, and the compositor sends configures, frame-done events and the
roundtrip's reply when it likes. A run is any sequence of steps, and a step that
is not enabled changes nothing, so the theorems range over all sequences.
`WindowLog` shows that the compositor of a run is the replay of the run's log.
`WindowInvariant` holds the invariant of those runs, `WindowTheorems` what follows
from it, `ConnectionLog` what an error-free log means, `PushRun` what one call does
when nothing interrupts it, `Finalization` the buffer loop of `finalize`,
`WindowHazards` the ways the code falls short. `SingleWindowManager` is the class
itself, with the fields it holds; its methods are proved to make exactly the calls
that the step machine makes.

**The frame pipeline.** `Consumer` is `WLConsumer`'s table of acquired buffers as
state functions; `FrameHandoff` the flag, mutex and condition between the
producer's callback and the run loop; `FrameLoop` the run loop driving a table of
one entry. `Pipeline` is the whole of it as one machine: a lock in the run loop
calls `pushFrame`, whose calls interleave with the producer, the compositor and the
dispatch thread, and the loop goes on when `pushFrame` has returned.
`FrameOutput` holds the classes `WLConsumer` and `WLFrameOutput` and the loop of
`VirtualDisplayManager::run`. `Compaction` is the in-place RGBA to RGB conversion.

**The letterbox.** `Projection` has the float arithmetic of
`setDisplayProjection` with the three operations left abstract: each is within a
relative 2^-24 of the exact result (round to nearest of binary32, section 4.3.1 of
IEEE 754-2019), and the conversion to `uint32_t` truncates in range and gives any
`uint32_t` outside it. `ExactProjection` is the same code in exact arithmetic,
`RoundedProjection` the distance between the two, `VirtualDisplay` the class with
the size defaults and the display transaction.

**GL and EGL objects.** `Gl` models shader and program objects with deferred
deletion (sections 2.10.1 and 2.10.3 of the OpenGL ES 2.0 specification);
`GlProgram` what each stage of `Program::setup` leaves, `GlOwnership` whole runs,
`Program` the class. `EglObjects` and `EglWindow` do the same for contexts and
surfaces, which EGL also keeps while they are current. `BlitGeometry` has the
matrix, the viewport transform (section 2.12.1) and the triangle strip of a blit
over the reals.

**Refresh messages.** `MessageQueue` has any number of threads, each split between
its atomic or and its send.

## Hypotheses

They are stated where they are used, as `requires` clauses or as enabling
conditions of a step.

- The compositor sends its first configure before it answers the roundtrip (a
  `polite` compositor in `WindowRun.Machine`): needed for
  `WindowTheorems.NoProtocolError` alone. The other theorems about the window
  manager and the pipeline hold for every run that raised no error, and
  `WindowTheorems.NoErrorIffAcknowledged` says which runs those are, polite or not.
- One dispatcher: a configure is taken from the queue and acknowledged in one
  action, and handlers run one after the other. In the source the roundtrip of
  `initialize` (`WaylandSingleWindowManager.cpp:51`) dispatches on the calling thread
  while the thread of `WaylandWindowManager.cpp:131-135` dispatches the same queue.
  `WindowTheorems.ConfiguresAcknowledged` and `WindowTheorems.NoProtocolError` rest
  on this.
- A handle pushed again has the contents and geometry it had before
  (`WindowTheorems.Stable`). It appears on one side of an if-and-only-if, so it is
  needed too.
- A successful `lockAsync` gives a non-null address, different from those of the
  buffers already held (`Consumer.FreshAddress`, `FrameLoop.NonNull`).
- The producer's queue is first in, first out, drops nothing, and calls back once
  per frame after queueing it (`FrameHandoff.Next`).
- No program that other code owns awaits deletion when the first setup starts
  (`GlOwnership.Base`). A name that the driver answers although it is in use stands for a
  failed call.

## What turned out not to hold

- `pushFrame` stores the frame callback and then reads the field again to add the
  listener. The handler of an earlier callback can reset the field in between, and
  the listener is then added to a null proxy: possible exactly when an earlier
  callback is still awaited at that moment. The loop that would have waited for it
  is commented out (`WaylandSingleWindowManager.cpp:105-108`).
- A handle address that is reused with other contents keeps showing the old
  contents, damaged to the new size.
- If the roundtrip is answered before any configure, `initialize` returns 0 all the
  same. The first frame is a protocol error if it is attached before a configure has
  been acknowledged, and only then; a configure acknowledged in time saves it
  (`WindowTheorems.NoErrorIffAcknowledged`, with a run of each kind in
  `WindowHazards`).
- When `lockAsync` fails, the acquired item is given back by nobody: what was
  acquired is released or still held if and only if no item met a failing lock.
- The table of one entry is overrun exactly when a frame is locked after an earlier
  one could not be unlocked, which two frames are enough for.
- One flag for many callbacks: frames are left in the queue at rest exactly when some
  callback found the flag already set, and the backlog never falls below the number
  of those callbacks again.
- In exact arithmetic the letterbox is the scaled display truncated only while
  `videoWidth * displayAspect` is below 2^32; beyond, the conversion may give 0.
- `Program::setup` forgets a program for good exactly when it succeeds on an object
  that already holds one; two setups and a release from an empty context leave a
  program that nothing holds. `release` after a draw only flags the program; it goes
  away with the next change of program.
- `EglWindow::release` empties its fields whatever happens. When the unbinding and the
  thread's release are both refused while a context is current, that context and its
  surface stay alive with no field naming them, until something lets them go.
- A thread can return from `refresh` before the message is sent, exactly when the
  thread that set the bit is still between its two actions. The handler never
  clears the bit, so a whole run carries at most one refresh.

## Model

| member | source | states |
|---|---|---|
| Wayland.DecodeEncodeAll | src/wl_client/WaylandSingleWindowManager.cpp:87-98 | Any number of encoded buffers laid end to end parse back to the list of handles with their descriptors in order, integers, geometry and format. |
| Wayland.OnlyEncodingsDecode | src/wl_client/WaylandSingleWindowManager.cpp:87-98 | Nothing but an encoding parses, so with the above the wire form is a bijection. |
| Compositor.ServerReadsFds | src/wl_client/WaylandSingleWindowManager.cpp:93-95 | From any state with room left in the handle, the descriptors arrive in order and none is too many. |
| Compositor.ServerRebuilds | src/wl_client/WaylandSingleWindowManager.cpp:87-98 | From any healthy state the wire form raises no error and adds exactly one buffer, holding the handle that was encoded, and leaves no android_wlegl_handle. |
| ConnectionLog.Accounts | src/wl_client/WaylandSingleWindowManager.cpp:81-103 | In an error-free log the serials acknowledged are those of the log, and buffers created are those alive plus those destroyed. |
| ConnectionLog.ErrorFreeObeysXdg | src/wl_client/xdg-shell-client-protocol.h:148-160 | An error-free log assigns a role before any other xdg_surface request and, once there is an xdg_surface, attaches no buffer before a configure is acknowledged. |
| WindowInvariant.RunKeeps | src/wl_client/WaylandSingleWindowManager.cpp:11-118 | Under a compositor that configures first, the connection, cache, configure and callback invariant survives every interleaving of both threads and the compositor. |
| WindowInvariant.RunKeepsOrFails | src/wl_client/WaylandSingleWindowManager.cpp:11-118 | Under any compositor the invariant survives too, unless the connection ended in an unconfigured buffer. |
| WindowLog.RunReplays | src/wl_client/WaylandSingleWindowManager.cpp:11-118 | The compositor state of a run is the replay of its own connection log. |
| WindowTheorems.NoProtocolError | src/wl_client/WaylandSingleWindowManager.cpp:62-118 | Over every run under a compositor that configures before it answers the roundtrip, replaying the whole log raises no protocol error, and between pushes no android_wlegl_handle is left. |
| WindowTheorems.NoErrorIffAcknowledged | src/wl_client/xdg-shell-client-protocol.h:157-160 | For every run under any compositor: no protocol error if and only if every attach of the log comes after an acknowledgement, and no other error ever. |
| WindowTheorems.FirstIsLeast | src/wl_client/WaylandSingleWindowManager.cpp:81-103 | The frame whose contents the cache keeps is the one pushed at the least index under its handle. |
| WindowTheorems.ShownContents | src/wl_client/WaylandSingleWindowManager.cpp:81-116 | Each completed push commits, with the damage of its own size, the contents first pushed under its handle when caching, and its own contents otherwise. |
| WindowTheorems.ShownFields | src/wl_client/WaylandSingleWindowManager.cpp:97-116 | Field by field over every run: what the i-th completed push commits has the descriptors and integers, width, height, stride and format of the frame kept for it, usage 0x200, and as damage the width and height of the frame pushed. |
| WindowTheorems.ShowsPushedIffStable | src/wl_client/WaylandSingleWindowManager.cpp:81-116 | In every state the surface has shown exactly the frames whose push completed, in order and to the descriptor, if and only if handles are stable among them. |
| WindowTheorems.CachelessShowsPushed | src/wl_client/WaylandSingleWindowManager.cpp:87-116 | A pushFrame that creates a buffer every time shows exactly what it is given, stable or not: the same native handle, width, height, stride and format, with its own width and height damaged. |
| WindowTheorems.CacheRefinesCacheless | src/wl_client/WaylandSingleWindowManager.cpp:81-116 | For any two runs over the same pushes, the cached and the cacheless client commit the same contents if and only if handles are stable. |
| WindowTheorems.LogAccounts | src/wl_client/WaylandSingleWindowManager.cpp:81-118 | In every run the live buffers are those the log created, none destroyed, and the acknowledged serials are those of the log. |
| WindowTheorems.LiveBuffersAreTheMap | src/wl_client/WaylandSingleWindowManager.cpp:81-103 | In every state the live buffers are the pairwise distinct values of buffer_map and the one created but not yet mapped, one create_buffer per distinct handle, each holding the contents first pushed. |
| WindowTheorems.LiveBufferFields | src/wl_client/WaylandSingleWindowManager.cpp:97-102 | In every state the buffer the map names for a handle is alive and has, field by field, the native handle, width, height, stride and format of the frame first pushed under it, with usage 0x200. |
| WindowTheorems.CachelessCreates | src/wl_client/WaylandSingleWindowManager.cpp:87-98 | Without the cache there is one create_buffer per push, so the cache saves exactly the repeats. |
| WindowTheorems.ConfiguresAcknowledged | src/wl_client/WaylandSingleWindowManager.h:31-36 | At every moment the serials sent are those acknowledged, once and in order, followed by those still queued; roles come first and no attach precedes an acknowledgement. |
| WindowTheorems.CallbacksConserved | src/wl_client/WaylandSingleWindowManager.cpp:110-118 | Frame callbacks requested are those destroyed plus those outstanding, each once; frame_callback_ptr is null or the latest request, still alive. |
| PushRun.PushUninterrupted | src/wl_client/WaylandSingleWindowManager.cpp:81-118 | With no event in between, the step machine's pushFrame makes the calls of the class method and returns. |
| PushRun.InitializeRun | src/wl_client/WaylandSingleWindowManager.cpp:11-60 | initialize ends with every configure of the roundtrip acknowledged in order before the second commit and the callback pointer null. |
| WindowHazards.NullListenerIffAwaited | src/wl_client/WaylandSingleWindowManager.cpp:105-111 | Events between requesting a callback and adding its listener can null the pointer if and only if an earlier callback is still awaited. |
| WindowHazards.NullListenerReachable | src/wl_client/WaylandSingleWindowManager.cpp:110-111 | A run from initialize that adds a listener to the null proxy. |
| WindowHazards.StaleContentReachable | src/wl_client/WaylandSingleWindowManager.cpp:81-116 | For any two frames under one handle with different contents, a run that shows the first one twice. |
| WindowHazards.UnconfiguredReachable | src/wl_client/WaylandSingleWindowManager.cpp:50-52 | With a compositor that answers the roundtrip unconfigured, a run whose first frame is a protocol error. |
| WindowHazards.LateConfigureAccepted | src/wl_client/WaylandSingleWindowManager.cpp:50-52 | A run in which the roundtrip is answered unconfigured, a configure is acknowledged before the first frame, and the frame is shown. |
| Finalization.InKeyOrder | src/wl_client/WaylandSingleWindowManager.cpp:161-163 | The order of the map's iteration has exactly the buffers of the keys walked, as many as there are keys. |
| Finalization.SmallerFirst | src/wl_client/WaylandSingleWindowManager.cpp:161-163 | Of two keys of the map, the buffer of the smaller is destroyed first. |
| Finalization.DestroysAccepted | src/wl_client/WaylandSingleWindowManager.cpp:161-163 | A sequence of destructions is accepted if and only if it names existing buffers, none twice; then exactly those are gone. |
| Finalization.FinalizeLeavesNothing | src/wl_client/WaylandSingleWindowManager.cpp:160-164 | From any state between pushes finalize destroys every buffer ever created, each once, and leaves none. |
| SingleWindowManager.WindowManager.constructor | src/wl_client/WaylandSingleWindowManager.h:45-68 | An empty map, and a callback pointer with whatever memory held. |
| SingleWindowManager.WindowManager.Initialize | src/wl_client/WaylandSingleWindowManager.cpp:11-60 | The requests of initialize call by call with ids 1 to 3, one acknowledgement per configure in order, the second commit, the map untouched and the pointer null; without a surface it returns -1 and asks for nothing. |
| SingleWindowManager.WindowManager.PushFrame | src/wl_client/WaylandSingleWindowManager.cpp:62-118 | On a miss the wire form, whose create_buffer carries the frame's width, height, stride and format in their places and usage 0x200, and a new map entry; on a hit neither; then frame, attach of the mapped buffer, damage and commit. |
| SingleWindowManager.PushedCalls | src/wl_client/WaylandSingleWindowManager.cpp:81-116 | Every call of a push written out: handle with its integers, one add_fd per descriptor in order, create_buffer with its six arguments, handle destruction, then frame, attach, damage of width by height, commit; on a hit only the last four, with the mapped buffer. |
| SingleWindowManager.WindowManager.FrameCallback | src/wl_client/WaylandSingleWindowManager.cpp:152-158 | Resets the pointer, whichever callback it is for, and destroys that callback. |
| SingleWindowManager.WindowManager.XdgSurfaceConfigure | src/wl_client/WaylandSingleWindowManager.h:31-36 | Acknowledges the serial and touches no field. |
| SingleWindowManager.WindowManager.Finalize | src/wl_client/WaylandSingleWindowManager.cpp:160-164 | One destruction per map entry in key order, and an empty map. |
| SingleWindowManager.InitializeCalls | src/wl_client/WaylandSingleWindowManager.cpp:11-60 | The client's calls in the step machine's initialize are those of the method. |
| SingleWindowManager.ConfigureMatches | src/wl_client/WaylandSingleWindowManager.h:31-36 | The dispatch thread's action for a queued configure takes it off the queue and does what XdgSurfaceConfigure does. |
| SingleWindowManager.DoneMatches | src/wl_client/WaylandSingleWindowManager.cpp:152-158 | Its two actions for a finished callback do what FrameCallback does: the pointer is null whichever callback it named, and the callback of the event is the one destroyed. |
| Consumer.Find | src/wl_client/WLConsumer.cpp:137-146 | The first entry with the id, or the size of the table. |
| Consumer.TableConserved | src/wl_client/WLConsumer.cpp:29-97 | Over every run that locks only with an entry free, whatever fails: acquired = released + occupied + abandoned, the counter moves with the occupied entries modulo 2^64 from any start, ids are distinct, releases are locks, pushes are locks in order. |
| Consumer.ReleaseNamesItsLock | src/wl_client/WLConsumer.cpp:68-97 | An unlock succeeds if and only if its non-null address is in the table and unlockAsync succeeds; it releases the slot and buffer of the latest lock at that address, and otherwise changes nothing. |
| Consumer.OverrunIffFull | src/wl_client/WLConsumer.cpp:54-57 | The unchecked search result is out of bounds if and only if a buffer is locked with no entry free. |
| Consumer.LocksInAcquireOrder | src/wl_client/WLConsumer.cpp:29-66 | In every run, disciplined or not, the buffers locked are the items acquired, in the same order, filtered by whether lockAsync succeeded; the others are abandoned. |
| Consumer.LockCarries | src/wl_client/WLConsumer.cpp:45-65 | Over every run, the i-th operation acquires the item's own buffer, or the slot's when the item brings none; if lockAsync succeeds exactly that buffer is locked with its slot and address and pushed, and if it fails it is abandoned. |
| Consumer.AllGivenBackIff | src/wl_client/WLConsumer.cpp:49-52 | Over every disciplined run, everything acquired is released or still held if and only if no item met a failing lock. |
| Consumer.ItemLost | src/wl_client/WLConsumer.cpp:49-52 | A run of one failing lock after which the acquired item is neither held nor released. |
| FrameHandoff.HandoffAccounts | src/wl_client/WLFrameOutput.cpp:83-94 | The flag is set if and only if a callback came since the last attempt; no attempt finds the queue empty; frames leave in order; the backlog is accounted for exactly. |
| FrameHandoff.RestingLag | src/wl_client/WLFrameOutput.cpp:157-176 | At rest, with no failure, what was taken is what was produced short of exactly the coalesced callbacks. |
| FrameHandoff.LeftBehindIff | src/wl_client/WLFrameOutput.cpp:83-94 | At rest, with no failure, frames are left in the queue if and only if some callback of the run found the flag already set. |
| FrameHandoff.LagStays | src/wl_client/WLFrameOutput.cpp:157-176 | Whatever follows, the backlog never falls below the callbacks already coalesced. |
| FrameHandoff.LagReachable | src/wl_client/WLFrameOutput.cpp:83-94 | A run of two frames and two callbacks that leaves one frame in the queue at rest. |
| FrameHandoff.NoLostWakeup | src/wl_client/WLFrameOutput.cpp:157-170 | Whatever interleaves after a callback, two returns of inputBufferLocked include an attempt to acquire. |
| FrameHandoff.OneReturnMayMiss | src/wl_client/WLFrameOutput.cpp:159-168 | One return is not enough: a callback during the wait is left to the next iteration. |
| FrameLoop.TableAlwaysFree | src/wl_client/WLFrameOutput.cpp:157-197 | If unlocking never fails, the one entry is free in every reachable state, the counter is back at its start, every lock is released in order, and the frames pushed are those locked. |
| FrameLoop.PushedInAcquireOrder | src/wl_client/WLFrameOutput.cpp:157-197 | Whatever fails, the items acquired are the frames taken from the queue in order, the frames pushed are those of them whose lock succeeded, and those whose lock failed are abandoned. |
| FrameLoop.LoopDrives | src/wl_client/WLFrameOutput.cpp:157-197 | A run of the loop takes the table through exactly the locks and unlocks it makes. |
| FrameLoop.OverrunIffLockAfterFailure | src/wl_client/WLFrameOutput.cpp:176-197 | The table is overrun if and only if some step of the run locks a frame after an earlier step locked one and could not unlock it. |
| FrameLoop.OverrunReachable | src/wl_client/WLFrameOutput.cpp:176-197 | A run of two frames, the first of which cannot be unlocked, that overruns the table. |
| Pipeline.LoopAccounts | src/wl_client/WLFrameOutput.cpp:157-197 | In the loop alone, without failed locks, frames pushed followed by frames queued are the frames produced, with the backlog accounted for. |
| Pipeline.ComponentsAlone | src/wl_client/WLConsumer.cpp:99-135 | In the joint machine the window manager runs as it would alone, and so does the loop up to the iteration under way, for every interleaving. |
| Pipeline.PushesAreLocks | src/wl_client/WLConsumer.cpp:99-135 | In every state of every joint run, whatever fails, pushFrame has been called for exactly the frames locked, in order, and the surface has shown all but the one under way. |
| Pipeline.PushedIsProduced | src/wl_client/WLFrameOutput.cpp:157-197 | In every state of every joint run without failed locks, frames pushed followed by frames queued are the frames produced. |
| Pipeline.ShowsWhatWasProduced | src/wl_client/WLConsumer.cpp:99-135 | From producer to surface in one machine and in every state: what has been shown is what was produced, in order and to the descriptor, short of an exactly known lag and the frame being pushed, if and only if handles are stable among those frames. |
| Pipeline.FreeWhenReady | src/wl_client/WLConsumer.cpp:54-57 | If unlocking never fails, the entry is free whenever the joint machine is about to take a frame. |
| FrameOutput.ServeHandles | src/wl_client/WLFrameOutput.cpp:170-197 | The step of the run loop and the class method do the same to the table. |
| FrameOutput.WLConsumer.constructor | src/wl_client/WLConsumer.cpp:18-27 | A table of unused entries and a counter with whatever memory held. |
| FrameOutput.WLConsumer.FindAcquiredBufferLocked | src/wl_client/WLConsumer.cpp:137-146 | The index loop finds the first entry with the id, and the table size only when there is none. |
| FrameOutput.WLConsumer.LockNextBuffer | src/wl_client/WLConsumer.cpp:29-66 | Given a free entry, every result and error path of the lock with its status; when lockAsync succeeds, the item's buffer, or the slot's when it brings none, is what the entry holds and what pushFrame is called with. |
| FrameOutput.WLConsumer.UnlockBuffer | src/wl_client/WLConsumer.cpp:68-97 | The release of the entry found, the reset entry and counter, or the error with nothing changed, with the status of each. |
| FrameOutput.WLFrameOutput.constructor | src/wl_client/WLFrameOutput.cpp:77-81 | No frame is available at first. |
| FrameOutput.WLFrameOutput.OnFrameAvailable | src/wl_client/WLFrameOutput.cpp:83-94 | The flag is set. |
| FrameOutput.WLFrameOutput.InputBufferLocked | src/wl_client/WLFrameOutput.cpp:157-198 | With the flag clear it waits and returns without a look; with it set, the flag is reset and the lock and unlock happen, and the frame shown is the item's buffer or, failing that, the slot's. |
| FrameOutput.HandledFree | src/wl_client/WLFrameOutput.cpp:176-197 | With the entry free, an iteration whose unlock succeeds leaves it free. |
| FrameOutput.SoundFit | src/wl_client/VirtualDisplayManager.cpp:145-149 | If unlocking never fails, nothing is ever locked with the table full, and the entry is free after the last iteration. |
| FrameOutput.Run | src/wl_client/VirtualDisplayManager.cpp:145-149 | Over any number of iterations, with locks and unlocks that may fail as long as nothing is locked with the table full, table, flag and connection are those of the iterations in turn. |
| Compaction.RgbBytes | src/wl_client/WLFrameOutput.cpp:36-42 | Byte c of pixel i of the result is byte c of pixel i of the source, for the first three bytes. |
| Compaction.ReduceRgbaToRgb | src/wl_client/WLFrameOutput.cpp:30-43 | In place and despite the overlap, the prefix is the compacted image and every later byte is as it was. |
| Compaction.OutputPixel | src/wl_client/WLFrameOutput.cpp:187-191 | As called with width * height, output pixel (x, y) is input pixel (x, y) exactly when stride equals width, or in the first row. |
| Projection.FitsUnderAnyRounding | src/wl_client/VirtualDisplayManager.cpp:116-135 | For all sizes below 2^23 and every faithful rounding, the rectangle fits, meets the area on one side, no subtraction wraps, and opposite margins differ by at most one. |
| Projection.FloorToEven | src/wl_client/VirtualDisplayManager.cpp:17-19 | The largest even number not above the argument. |
| Projection.FloorToEvenClearsTheBit | src/wl_client/VirtualDisplayManager.cpp:17-19 | Clearing the low bit of 32 is subtracting the remainder modulo 2. |
| Projection.DefaultSizeMissesOneLine | src/wl_client/VirtualDisplayManager.cpp:49-135 | An even display at its default size is projected from (0, 0) and misses at most one row or one column, never both. |
| Projection.VideoSizeSides | src/wl_client/VirtualDisplayManager.cpp:49-54 | A configured side is kept; a side left at 0 becomes even and is the display's or one less, whatever the display. |
| ExactProjection.ExactLetterbox | src/wl_client/VirtualDisplayManager.cpp:123-131 | In exact arithmetic both branches, although they compare a truncated product, give the display scaled to just fit and truncated. |
| ExactProjection.UnboundedLetterbox | src/wl_client/VirtualDisplayManager.cpp:123-131 | With a truncation of unbounded range, that holds for all positive sizes. |
| ExactProjection.ExactIffInRange | src/wl_client/VirtualDisplayManager.cpp:123-131 | With a conversion to uint32_t it holds for every conversion if and only if the product is below 2^32. |
| ExactProjection.OutOfRangeIsEmpty | src/wl_client/VirtualDisplayManager.cpp:123-126 | Beyond that range a conversion that answers 0 gives a rectangle of height 0. |
| ExactProjection.ScaleIsLargestFit | src/wl_client/VirtualDisplayManager.cpp:100-131 | A scale keeps the display inside the video area if and only if it is at most the scale used. |
| ExactProjection.ScaledShape | src/wl_client/VirtualDisplayManager.cpp:123-135 | For all positive sizes the exact rectangle lies inside and meets the area on one side, and the cross-multiplied aspect error is below the width one way and the height the other; for sizes that fit a uint32_t opposite margins differ by at most one. |
| RoundedProjection.WithinOnePixel | src/wl_client/VirtualDisplayManager.cpp:101-131 | While the rounded product is in range, rounding moves neither side by more than one pixel, even where it takes the other branch. |
| RoundedProjection.WithinOnePixelOfSizes | src/wl_client/VirtualDisplayManager.cpp:101-131 | The same with a condition on the four sizes alone that keeps the rounded product in range. |
| VirtualDisplay.ProjectionFitsSurface | src/wl_client/VirtualDisplayManager.cpp:103-142 | Rotated or not, the whole layer stack is mapped to a rectangle that, once it lands on the surface, lies on it, centred, and spans it one way. |
| VirtualDisplay.ProjectionKeepsShape | src/wl_client/VirtualDisplayManager.cpp:91-142 | Rotated or not and for every faithful rounding, while the sizes are below 2^23 and the rounded product in range: the orientation is 90 degrees exactly when rotating, and the rectangle is centred in the area with exchanged sides exactly then, each side within one pixel of the display scaled to just fit. |
| VirtualDisplay.ScaledSides | src/wl_client/VirtualDisplayManager.cpp:100-131 | The display scaled to just fit is each of its sides times the smaller of the two ratios, truncated. |
| VirtualDisplay.ExactProjectionShape | src/wl_client/VirtualDisplayManager.cpp:103-142 | In exact arithmetic, for all sizes and both orientations, the transaction's rectangle has the display's shape: the cross-multiplied aspect error is below the display's width one way and its height the other. |
| VirtualDisplay.VirtualDisplayManager.constructor | src/wl_client/VirtualDisplayManager.cpp:49-54 | Each configured size that is 0 becomes the display's less its remainder by 2, each other size is kept. |
| VirtualDisplay.VirtualDisplayManager.SetDisplayProjection | src/wl_client/VirtualDisplayManager.cpp:91-143 | The transaction is given the orientation, the whole layer stack and the centred letterbox of the pre-rotated area, which has the display's shape to the pixel. |
| GlProgram.OrFindsMissing | src/wl_client/Program.cpp:88-98 | The one test over the five locations is true if and only if some lookup failed. |
| GlProgram.CompileFailing | src/wl_client/Program.cpp:137-167 | A compilation that fails leaves the context as it was; otherwise one shader more. |
| GlProgram.LinkEffect | src/wl_client/Program.cpp:169-199 | A link that fails leaves the context as it was; otherwise one program more, with both shaders attached. |
| GlProgram.CreateEffect | src/wl_client/Program.cpp:112-135 | Either everything fails back to the context before, or one program more whose two shaders are already flagged. |
| GlProgram.SetupEffect | src/wl_client/Program.cpp:71-102 | For every failure choice a failed setup leaves every object as it was; a successful one adds exactly one program owning two flagged shaders. |
| GlProgram.RemoveUndoes | src/wl_client/Program.cpp:104-110 | Deleting that program takes its two shaders along. |
| GlOwnership.LiveObjects | src/wl_client/Program.cpp:71-135 | Over every run the other code's objects are untouched and the programs besides are the one held, those a later setup succeeded over and at most one released while in use, each with exactly two shaders. |
| GlOwnership.RestoredIff | src/wl_client/Program.cpp:71-110 | The context has its original objects if and only if nothing is held, no setup of the run succeeded over a held program and no released program is in use. |
| GlOwnership.OverwrittenIff | src/wl_client/Program.cpp:100-101 | A program is forgotten if and only if some setup of the run succeeds while it is held; it is then alive in every later state, never flagged and never held again. |
| GlOwnership.SecondSetupForgets | src/wl_client/Program.cpp:71-110 | From any context, two setups that succeed and a release leave the context as the first setup left it, with its program held by nobody. |
| GlOwnership.ForgottenReachable | src/wl_client/Program.cpp:71-110 | Such a run from an empty context. |
| GlOwnership.ReleaseUndoesSetup | src/wl_client/Program.cpp:71-110 | Release straight after setup restores the context; after a draw it only flags, and the next change of program completes it. |
| GlOwnership.DrawnRun | src/wl_client/Program.cpp:71-110 | As a run: after setup and draw the program is current; a release then only flags it, and the run that goes on to use another program has the objects it had at first. |
| Program.Program.constructor | src/wl_client/Program.h:37-45 | No program, no type, locations 0. |
| Program.Program.CompileShader | src/wl_client/Program.cpp:137-167 | The compilation with each of its failures. |
| Program.Program.LinkShaderProgram | src/wl_client/Program.cpp:169-199 | The link with each of its failures. |
| Program.Program.CreateProgram | src/wl_client/Program.cpp:112-135 | The stages in order, each failure undoing those before it. |
| Program.Program.Setup | src/wl_client/Program.cpp:71-102 | Succeeds exactly when every step does; otherwise context and mProgram are as before; it is the setup of the ownership run. |
| Program.Program.Release | src/wl_client/Program.cpp:104-110 | mProgram is 0 and the program it named, if any, has been deleted; that is the ownership run's release. |
| BlitGeometry.BeforeDrawMatrix | src/wl_client/Program.cpp:245-257 | The matrix edited in place is the projection the other lemmas are about. |
| BlitGeometry.PixelsOnScreen | src/wl_client/Program.cpp:245-266 | Matrix and viewport transform together take pixel (x, y) to (vp.x + x, vp.y + y) when inverted and to (vp.x + x, vp.y + height - y) otherwise. |
| BlitGeometry.DepthIsKept | src/wl_client/Program.cpp:245-257 | The last two rows of the matrix keep the depth of a vertex and its fourth coordinate 1. |
| BlitGeometry.StripTiles | src/wl_client/Program.cpp:207-223 | The two triangles together are the rectangle and share exactly its diagonal. |
| BlitGeometry.TextureMix | src/wl_client/Program.cpp:41-49 | Interpolating after the texture matrix equals applying its first two rows, entry by entry, to the interpolated coordinate. |
| BlitGeometry.OneTextureMap | src/wl_client/Program.cpp:207-223 | One affine map carries the texture across both triangles: a fraction s across and t down the rectangle shows (m0 s + m4 (1 - t) + m12, m1 s + m5 (1 - t) + m13). |
| BlitGeometry.IdentityShowsTexture | src/wl_client/Program.cpp:203-223 | With the identity matrix that is (s, 1 - t). |
| BlitGeometry.CornersShowCorners | src/wl_client/Program.cpp:203-223 | So the four corners of the rectangle show the four corners of the texture, each named. |
| BlitGeometry.BlitShows | src/wl_client/Program.cpp:203-268 | Every window position of either triangle is some fraction (s, t) of the rectangle, placed by the viewport, and shows the texture at that same affine image of (s, 1 - t). |
| EglWindow.CreateEffect | src/wl_client/EglWindow.cpp:36-89 | A creation succeeds if and only if nothing is held and every stage succeeds; then display, config, context, surface and size are those answered, otherwise no context or surface is held and none is added. |
| EglWindow.FailedStages | src/wl_client/EglWindow.cpp:36-156 | What each failing stage leaves: before a config is chosen, the display answered and the old config; at the context, the display and the config; at the surface, nothing but the size. |
| EglWindow.CreationSizes | src/wl_client/EglWindow.cpp:46-79 | A window takes the size its surface answers, a pbuffer the size asked for. |
| EglWindow.ReleaseEffect | src/wl_client/EglWindow.cpp:158-179 | Release leaves display, config, context and surface 0 and the size as it was, and leaves nothing alive, unless unbinding and the thread's release both fail; then exactly what was current stays. |
| EglWindow.NoLeak | src/wl_client/EglWindow.cpp:36-179 | Over every run with arbitrary failures: context set iff surface set, surface implies display, what exists is what the fields name and at most one destroyed object still current, nothing destroyed twice. |
| EglWindow.KeptIff | src/wl_client/EglWindow.cpp:158-179 | A context or surface is alive with no field naming it if and only if some release of the run was refused while one was current and nothing since has let it go. |
| EglWindow.FieldsAreAll | src/wl_client/EglWindow.cpp:36-179 | In a run none of whose releases is refused, what is alive is exactly what the fields name. |
| EglWindow.KeptReachable | src/wl_client/EglWindow.cpp:158-179 | A window made current and released with both refused leaves its context and surface alive and its fields empty. |
| EglWindow.UseKeeps | src/wl_client/EglWindow.cpp:91-97 | Making the window current keeps that. |
| EglWindow.EglWindow.constructor | src/wl_client/EglWindow.h:34-41 | Nothing held. |
| EglWindow.EglWindow.CreateWindow | src/wl_client/EglWindow.cpp:36-61 | The stages in order; success exactly when all succeed, with every field as answered; the fields each failing stage leaves; the invariant kept on every path. |
| EglWindow.EglWindow.CreatePbuffer | src/wl_client/EglWindow.cpp:63-89 | The same with the given size. |
| EglWindow.EglWindow.EglSetupContext | src/wl_client/EglWindow.cpp:99-156 | Display, config and context, stopping at the first failure, with what each failure leaves in the three fields. |
| EglWindow.EglWindow.EglRelease | src/wl_client/EglWindow.cpp:158-179 | Unbinding, both destructions if there is a display, cleared fields and the old size, the thread's release. |
| MessageQueue.OneRefreshEver | src/MessageQueue.cpp:13-17 | For any number of threads and any interleaving, messages sent plus threads about to send are 1 if the bit is set and 0 otherwise; at most one refresh is ever handled. |
| MessageQueue.SentWhenQuiet | src/MessageQueue.cpp:13-42 | With no thread between its two actions, exactly one message was sent if any thread has asked and none otherwise. |
| MessageQueue.CallsConserved | src/MessageQueue.cpp:13-17 | In every run, calls that began are those that have returned plus those between their two actions. |
| MessageQueue.HandledAfterOneTurn | src/MessageQueue.cpp:13-42 | Once any thread has asked and none is between its two actions, one more turn of the handler leaves exactly one refresh handled and the queue empty. |
| MessageQueue.CompletedBeforeSent | src/MessageQueue.cpp:94-96 | refresh can have returned with nothing sent exactly when one thread is between its two actions. |
| MessageQueue.ReturnFirstReachable | src/MessageQueue.cpp:13-17 | A run of two threads in which that happens. |
| MessageQueue.RefreshHandler.constructor | src/MessageQueue.h:66-67 | A clear mask. |
| MessageQueue.RefreshHandler.DispatchRefresh | src/MessageQueue.cpp:13-17 | Without interruption, the two actions of one thread in order. |

## Left out

- WindowTheorems.NoProtocolError: object ids count upward and are never reused, so the id recycling of libwayland after a destruction is not covered; entries reach the compositor in the order they are sent, without delay; the `bad_value` error of android_wlegl, declared with no condition, is not modelled.
- WindowTheorems.NoErrorIffAcknowledged: as for `WindowTheorems.NoProtocolError`, the errors are those whose condition the protocol documents state. The `bad_value` error of android_wlegl (`android-wayland-client-protocol.h:117`) is declared with no condition, and the model has none.
- WindowTheorems.CallbacksConserved: the two threads interleave as if memory were sequentially consistent; the field is shared without a lock in the source, which C++ leaves undefined.
- SingleWindowManager.WindowManager.Initialize: a null surface makes it return -1, and its only caller in `VirtualDisplayManager.cpp:25` ignores the result; the run machine starts from a surface.
- Finalization.FinalizeLeavesNothing: the shell surface and surface destructions that follow the loop are not modelled; the shell surface is never assigned.
- Consumer.ReleaseNamesItsLock: fences are not modelled, neither the one that guards a lock nor the one added at a release.
- Consumer.TableConserved: the queue's limit on acquired buffers is not modelled; acquisition may fail at any time instead.
- FrameLoop.TableAlwaysFree: in `FrameLoop` and `Pipeline` every acquired item carries its buffer. The item without one, whose buffer the slot already holds, is in `Consumer` and in the classes.
- FrameHandoff.NoLostWakeup: the quarter-second limit of the wait is not timed; a wait may end at any moment, signalled or not.
- Pipeline.ShowsWhatWasProduced: nothing is said about when the compositor has finished reading a buffer. `buffer_release` is ignored and the frame goes back to the producer at once.
- Projection.FitsUnderAnyRounding: sizes are below 2^23, where every conversion of a size to binary32 is exact with a bit to spare; larger sizes are not covered.
- RoundedProjection.WithinOnePixel: stated for sizes below 2^23 and while the rounded product is below 2^32, since beyond that the conversion may give anything.
- VirtualDisplay.ProjectionFitsSurface: what an orientation does is modelled as a transposition, up to mirroring.
- BlitGeometry.PixelsOnScreen: over the reals, with a viewport of positive size; the floats of the matrix and of the vertices, and the 32-bit sums x + w and y + h, are exact.
- EglWindow.NoLeak: one window per thread; configurations and displays are only handles, and other users of the thread's EGL are left out.
- Program.Program.Setup: log texts, error queries and the shader sources are left out; lookups give any five values, of which -1 means missing.
- Compaction.ReduceRgbaToRgb: compiled only with the output-debug macro; the file it is written to is left out.
- FrameOutput.Run: the source loops forever; the model runs any finite number of iterations, and says nothing once memory beyond the table is written.
- The GL variant of the frame output, which draws into a pbuffer and reads it back, is covered only by its parts (`Program`, `EglWindow`, `BlitGeometry`).
- Format-change eviction in `pushFrame` and the disabled message handling are commented out in the source and are not modelled.
- Binder, process start, registry binding, touch and output listeners: plumbing.
