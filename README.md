# KWin outputs, DRM and input filters in Dafny

This project models part of KWin, the KDE Plasma compositor. It covers:

- **DRM GPU** (`DrmGpu` and the `Drm*` modules). How a GPU discovers its planes and CRTCs, and how it keeps its hardware outputs, lease outputs and pipelines in step with the kernel's connectors (`updateOutputs`). This includes the recursive search for a working connector/CRTC combination, the rollback when none works, waiting for pending page flips, page-flip timestamps, and DRM leases.
- **EGL/GBM layer** (`EglGbmLayers`). Direct scanout of client buffers, and the dmabuf feedback that steers clients away from formats and modifiers that failed.
- **Outputs** (`OutputTypes`, `Outputs`). The output object: its setters with their change signals, `applyChanges`, `initialize`, the output uuid and the gamma ramp.
- **Platform** (`PlatformCore`). Applying an output configuration, enabled outputs first, plus the platform's small helpers.
- **Wayland** (`WaylandOutputs`, `WaylandOutputDevices`, `OutputManagement`). Advertising outputs over `wl_output` and the output-device protocol, and the output-management configuration object that clients fill and apply.
- **Decorated client** (`DecoratedClients`). The decoration's view of a window: maximisation, adjacent screen edges, size signals.
- **Taskbar thumbnails** (`TaskbarThumbnails`). The effect that parses `_KDE_WINDOW_PREVIEW`.
- **Button rebinds** (`ButtonRebinds`). The filter that turns mouse and tablet-pad buttons into key sequences.
- **Popup input filter** (`PopupInputFilters`). The filter that dismisses popups on a press outside their application.
- **Idle detector** (`IdleDetectors`). Reports idle and resumed.

Three modelling conventions run through the project:

- **State and operations.** Objects that the source updates in place are classes. Their methods are proved against specification functions on values. Properties of those functions are lemmas.
- **Signals.** Qt signals, protocol events and emitted key events are appended to a log in emission order.
- **Outside answers.** Whatever comes from the kernel, the toolkit or other components is a parameter of the operation that reads it. That covers the probe of a connector, the test commit, poll results, a lease fd, `QKeySequence::fromString`, the toplevel under the cursor, the hash iteration order of a `QHash`, and the like.

Two spots in the code as written misbehave, and the model keeps both readings apart:

- **The rollback after a failed search** (drm_gpu.cpp:341-351, logged as "Reverting to the old configuration!"). As written, it calls `setOutput` on the stashed pipeline of every stashed output, even one that had none. It also sets only the pipeline's side of each link, so an output keeps pointing at whatever candidate its last failed test gave it, and that candidate has been destroyed. `DrmUpdate.RevertAsWrittenFails` and `DrmUpdate.RollbackAsWrittenDangles` model the code as written. The rest of the model, from `DrmUpdate.Restore` and `DrmUpdate.Revert` up to `DrmGpu.Gpu.RestoreEntry`, `DrmGpu.Gpu.RestoreAll`, `DrmGpu.Gpu.RevertPipelines` and `DrmGpu.Gpu.UpdateOutputs`, follows the corrected rollback: an output that had no pipeline gets none back and adds nothing to the configuration, and both sides of each stashed link are set. The rows for these members say "corrected:".
- **The primary output after a configuration is applied** (outputmanagement_v2_interface.cpp:286-287). The code enters the branch when a primary was requested or when the current primary is now disabled, and in both cases it dereferences the requested primary, which is empty in the second case. `OutputManagement.PrimaryAsWrittenUndefined` models the code as written. `OutputManagement.OutputConfigurationV2.Apply` uses the corrected `OutputManagement.PrimaryChoice`.

The taskbar thumbnail parser is handled the same way: `TaskbarThumbnails.ParseAsWrittenReadsPastEnd` and `TaskbarThumbnails.ParseAsWrittenShortProperty` model the reads as written, and `TaskbarThumbnails.ParseThumbnails` reads only records that lie inside the property. See Findings for all of these.

## Model

| member | source | states |
|---|---|---|
| `DrmGpu.CursorEdge` | src/backends/drm/drm_gpu.cpp:58-68 | a cursor dimension is the capability's value when it can be read, and 64 otherwise |
| `DrmGpu.PresentationClock` | src/backends/drm/drm_gpu.cpp:70-75 | the presentation clock is CLOCK_MONOTONIC exactly when the monotonic-timestamp capability reads 1 |
| `DrmGpu.Gpu.constructor` | src/backends/drm/drm_gpu.cpp:48-128 | cursor size, presentation clock, and resources discovered only when KWIN_DRM_NO_AMS is unset; the registry starts empty |
| `DrmResources.InitPlanes` | src/backends/drm/drm_gpu.cpp:175-183 | every kept plane has one of the kernel's plane ids and passed init(), and there are no more planes than ids |
| `DrmResources.InitPositionsExact` | src/backends/drm/drm_gpu.cpp:175-183 | the positions whose init() succeeds are listed all, each once, in ascending order |
| `DrmResources.InitPlanesInOrder` | src/backends/drm/drm_gpu.cpp:175-183 | the kept planes are exactly the planes at the positions whose init() succeeded, one per position, in kernel order |
| `DrmResources.AtomicMode` | src/backends/drm/drm_gpu.cpp:168-197 | atomic mode is used iff the client capability was accepted, plane resources were read and some plane initialised |
| `DrmResources.InitPlanesEmpty` | src/backends/drm/drm_gpu.cpp:184-189 | no plane is kept iff every plane's init() fails |
| `DrmResources.PickPrimaryChoice` | src/backends/drm/drm_gpu.cpp:206-215 | a CRTC's primary plane is the first eligible plane already bound to it, else the last eligible plane, and none iff no plane is eligible |
| `DrmResources.DiscoveryShape` | src/backends/drm/drm_gpu.cpp:199-227 | kept CRTCs carry their kernel id and index, passed init(), come in index order, and in atomic mode all have a primary plane |
| `DrmResources.DiscoveryMembers` | src/backends/drm/drm_gpu.cpp:199-227 | every kept CRTC carries its kernel id and index and passed init(); in atomic mode it has a primary plane |
| `DrmResources.DiscoveryOrder` | src/backends/drm/drm_gpu.cpp:199-227 | the kept CRTCs come in strictly ascending index order |
| `DrmResources.DiscoveryPlanes` | src/backends/drm/drm_gpu.cpp:204-227 | each primary plane comes from the plane pool and supports its CRTC; no plane serves two CRTCs |
| `DrmGpu.DiscoverDistinct` | src/backends/drm/drm_gpu.cpp:199-227 | initDrmResources never keeps a CRTC twice |
| `DrmGpu.Gpu.InitDrmResources` | src/backends/drm/drm_gpu.cpp:166-228 | the plane and CRTC loops compute Discover, and no CRTC is kept twice |
| `DrmGpu.Gpu.CreatePlanes` | src/backends/drm/drm_gpu.cpp:175-183 | the plane loop yields InitPlanes |
| `DrmGpu.Gpu.ChoosePrimary` | src/backends/drm/drm_gpu.cpp:206-215 | the inner loop yields PickPrimary |
| `DrmResources.IsFormatSupported` | src/backends/drm/drm_gpu.cpp:632-644 | legacy mode accepts exactly XRGB8888 and ARGB8888; atomic mode accepts a format iff every primary plane lists it |
| `DrmResources.PrimariesList` | src/backends/drm/drm_gpu.cpp:637-642 | the plane loop returns true iff no primary plane lacks the format |
| `DrmGpu.Gpu.IsFormatSupportedOn` | src/backends/drm/drm_gpu.cpp:632-644 | the method's answer is the specification's |
| `DrmRegistry.FindOutputIn` | src/backends/drm/drm_gpu.cpp:471-480 | findOutput yields the first hardware output on the connector, and none iff no tracked output drives it |
| `DrmRegistry.FindLeaseOutputIn` | src/backends/drm/drm_gpu.cpp:646-655 | findLeaseOutput yields the first lease output whose pipeline drives the connector, and none iff there is none |
| `DrmGpu.Gpu.FindOutput` | src/backends/drm/drm_gpu.cpp:471-480 | the search loop returns FindOutputIn's answer |
| `DrmGpu.Gpu.FindLeaseOutput` | src/backends/drm/drm_gpu.cpp:646-655 | the search loop returns FindLeaseOutputIn's answer |
| `DrmRegistry.RemoveOutputEffect` | src/backends/drm/drm_gpu.cpp:582-592 | removeOutput keeps the registry consistent, untracks exactly that output and its pipeline, and emits outputRemoved once |
| `DrmRegistry.RemoveOutputUntracks` | src/backends/drm/drm_gpu.cpp:585-591 | the lists left behind are parts of the old ones and hold nothing destroyed |
| `DrmGpu.Gpu.RemoveOutput` | src/backends/drm/drm_gpu.cpp:582-592 | the registry after the call is RemoveOutputSpec of the one before, and stays valid |
| `DrmRegistry.RemoveLeaseOutputEffect` | src/backends/drm/drm_gpu.cpp:703-711 | removeLeaseOutput untracks exactly the lease output and its pipeline and keeps the registry consistent |
| `DrmGpu.Gpu.RemoveLeaseOutput` | src/backends/drm/drm_gpu.cpp:703-711 | the registry after the call is RemoveLeaseOutputSpec of the one before |
| `DrmRegistry.CreateVirtualOutputEffect` | src/backends/drm/drm_gpu.cpp:613-622 | a virtual output is new, appended to the outputs, announced enabled then added, with the given scale and placeholder flag |
| `DrmGpu.Gpu.CreateVirtualOutput` | src/backends/drm/drm_gpu.cpp:613-622 | returns a fresh id that is now tracked; the registry is CreateVirtualOutputSpec of the old one |
| `DrmRegistry.RemoveVirtualOutputEffect` | src/backends/drm/drm_gpu.cpp:624-630 | a tracked virtual output is untracked, announced removed and destroyed; an untracked one changes nothing |
| `DrmGpu.Gpu.RemoveVirtualOutput` | src/backends/drm/drm_gpu.cpp:624-630 | the registry after the call is RemoveVirtualOutputSpec of the one before |
| `DrmRegistry.Collected` | src/backends/drm/drm_gpu.cpp:659-668 | a lease request collects, in request order, the requested lease outputs that are tracked and not leased |
| `DrmRegistry.MarkLeased` | src/backends/drm/drm_gpu.cpp:684-686 | each collected output carries the new lease, every other output keeps its own |
| `DrmRegistry.LeaseRequestOutcome` | src/backends/drm/drm_gpu.cpp:657-688 | a lease request is granted iff the fd is non-negative; then exactly the requested tracked unleased outputs carry the lease and outputs already leased keep theirs |
| `DrmGpu.Gpu.HandleLeaseRequest` | src/backends/drm/drm_gpu.cpp:657-688 | the registry after the call is LeaseRequestSpec of the one before |
| `DrmGpu.Gpu.CollectLeasable` | src/backends/drm/drm_gpu.cpp:659-668 | the collection loop returns Collected |
| `DrmGpu.Gpu.MarkAll` | src/backends/drm/drm_gpu.cpp:684-686 | the marking loop yields MarkLeased |
| `DrmRegistry.EndLeases` | src/backends/drm/drm_gpu.cpp:692-698 | ending leases changes no list and keeps the lease outputs' keys |
| `DrmRegistry.LeaseRevokedOutcome` | src/backends/drm/drm_gpu.cpp:690-701 | after a revocation every requested tracked output is free, other lease outputs are unchanged, and the lessee is revoked last |
| `DrmRegistry.EndLeasesTracked` | src/backends/drm/drm_gpu.cpp:692-698 | the requested tracked lease outputs end up free and every other lease output is untouched |
| `DrmGpu.Gpu.HandleLeaseRevoked` | src/backends/drm/drm_gpu.cpp:690-701 | the registry after the call is LeaseRevokedSpec of the one before |
| `DrmTimestamps.ConvertTimestamp` | src/backends/drm/drm_gpu.cpp:512-532 | same clocks give the timestamp in nanoseconds; otherwise the result lies as far before the target's now as the timestamp lies before the source's now |
| `DrmTimestamps.ConvertKeepsIntervals` | src/backends/drm/drm_gpu.cpp:517-532 | conversion keeps the distance between two timestamps taken against the same clock readings |
| `DrmTimestamps.FlipTimespec` | src/backends/drm/drm_gpu.cpp:557-559 | `usec * 1000` is an unsigned 32-bit product: exact when it fits, wrapped otherwise |
| `DrmTimestamps.FlipTimestamp` | src/backends/drm/drm_gpu.cpp:557-564 | the result is never zero unless steady-clock now is zero: a zero time is replaced by steady-clock now (the exact values are stated in MonotonicFlipIsExact and RealtimeFlipKeepsAge) |
| `DrmTimestamps.MonotonicFlipIsExact` | src/backends/drm/drm_gpu.cpp:557-564 | on a monotonic clock with a valid microsecond count the flip timestamp is the kernel's time, except the all-zero time |
| `DrmTimestamps.RealtimeFlipKeepsAge` | src/backends/drm/drm_gpu.cpp:517-532 | a realtime flip keeps its age when moved to the monotonic clock |
| `DrmRegistry.PageFlipEffect` | src/backends/drm/drm_gpu.cpp:534-569 | a flip for a tracked output clears its pending flag and reports one frame; a flip for a removed output changes nothing |
| `DrmGpu.Gpu.PageFlipped` | src/backends/drm/drm_gpu.cpp:534-569 | the registry after the handler is FlipSpec of the one before |
| `DrmGpu.FlipsSpec` | src/backends/drm/drm_gpu.cpp:571-580 | handling flips keeps the set of outputs and what kind each is |
| `DrmGpu.DispatchSpec` | src/backends/drm/drm_gpu.cpp:571-580 | dispatching keeps the set of outputs and what kind each is |
| `DrmGpu.FlipsOk` | src/backends/drm/drm_gpu.cpp:571-580 | handling flips keeps the registry consistent |
| `DrmGpu.Gpu.DispatchEvents` | src/backends/drm/drm_gpu.cpp:571-580 | nothing happens while the session is inactive; otherwise every pending flip is handled in order |
| `DrmGpu.Gpu.IsIdle` | src/backends/drm/drm_gpu.cpp:486-488 | the all_of test answers whether no tracked hardware output awaits a flip |
| `DrmGpu.WaitIdleStep` | src/backends/drm/drm_gpu.cpp:485-508 | one round of the loop dispatches on a ready fd, retries after EINTR, and stops on another poll error or a timeout |
| `DrmGpu.WaitIdleExit` | src/backends/drm/drm_gpu.cpp:482-510 | waitIdle reports Idle iff it leaves no hardware output awaiting a flip |
| `DrmGpu.WaitIdleOk` | src/backends/drm/drm_gpu.cpp:482-510 | waiting keeps the registry consistent |
| `DrmGpu.Gpu.WaitIdle` | src/backends/drm/drm_gpu.cpp:482-510 | the loop computes WaitIdleSpec, and the socket notifier is enabled again afterwards |
| `DrmUpdate.DenialsExact` | src/backends/drm/drm_gpu.cpp:241-255 | a lease is denied iff its output is tracked, leased, and its lessee is missing from the kernel's list |
| `DrmGpu.Gpu.CheckLessees` | src/backends/drm/drm_gpu.cpp:241-255 | the lessee check computes LesseeCheck and keeps the registry valid |
| `DrmGpu.Gpu.StaleDenials` | src/backends/drm/drm_gpu.cpp:241-255 | the loop over the lease outputs denies exactly the stale leases, in m_leaseOutputs order (Denials) |
| `DrmReconcile.IndexOfConnector` | src/backends/drm/drm_gpu.cpp:261 | the find_if yields the first tracked connector with the id, and none iff there is none |
| `DrmGpu.Gpu.FindConnector` | src/backends/drm/drm_gpu.cpp:261 | the search returns IndexOfConnector |
| `DrmReconcile.RemoveConnector` | src/backends/drm/drm_gpu.cpp:282 | removeOne drops the first connector with the id and keeps the rest in order |
| `DrmReconcile.RemoveConnectorsKeeps` | src/backends/drm/drm_gpu.cpp:276-284 | removing the listed ids keeps exactly the connectors with other ids, still distinct |
| `DrmGpu.Gpu.ScanOne` | src/backends/drm/drm_gpu.cpp:260-274 | one scan iteration computes ScanStep: an unknown id is tracked only if init() succeeds and it is connected; a known connected one leaves the removal list |
| `DrmGpu.Gpu.ScanConnectors` | src/backends/drm/drm_gpu.cpp:258-275 | the scan computes ScanAll over the kernel's connector ids |
| `DrmReconcile.ReconciledClean` | src/backends/drm/drm_gpu.cpp:257-284 | after reconciliation every tracked connector is connected and reported, ids stay distinct, and a new one is kept only if its init() succeeded |
| `DrmReconcile.CleanConnected` | src/backends/drm/drm_gpu.cpp:257-284 | every connector left is connected, reported by the kernel, and initialised if new |
| `DrmReconcile.CleanComplete` | src/backends/drm/drm_gpu.cpp:257-284 | every reported connected connector that is tracked or initialises is left |
| `DrmUpdate.TeardownEffect` | src/backends/drm/drm_gpu.cpp:276-281 | tearing down a connector removes its output, else its lease output, and keeps the registry consistent |
| `DrmGpu.Gpu.TearDownRemoved` | src/backends/drm/drm_gpu.cpp:276-284 | the removal loop drops each connector from the list and tears down its output or lease output |
| `DrmGpu.Gpu.ReconcileConnectors` | src/backends/drm/drm_gpu.cpp:257-284 | the tracked connectors become Reconciled, and the registry is torn down for exactly the connectors the scan left in the removal list |
| `DrmUpdate.CollectAllConnected` | src/backends/drm/drm_gpu.cpp:286-300 | after reconciliation the pass collects every tracked connector in order and tears nothing down |
| `DrmGpu.Gpu.CollectConnected` | src/backends/drm/drm_gpu.cpp:286-300 | the pass computes CollectAll |
| `DrmUpdate.StashStepEffect` | src/backends/drm/drm_gpu.cpp:313-321 | one stash step detaches the output and takes its pipeline out of m_pipelines |
| `DrmUpdate.StashAllOk` | src/backends/drm/drm_gpu.cpp:311-321 | the stash keeps the registry consistent |
| `DrmUpdate.StashAllState` | src/backends/drm/drm_gpu.cpp:311-321 | after the stash every listed output is detached; only pipelines, m_pipelines and the log change |
| `DrmUpdate.StashAllRecords` | src/backends/drm/drm_gpu.cpp:311-321 | the stash records each output with its old pipeline, and none of those pipelines stays in m_pipelines |
| `DrmGpu.Gpu.StashPipelines` | src/backends/drm/drm_gpu.cpp:311-321 | the stash loop computes StashAll |
| `DrmRefresh.StashOk` | src/backends/drm/drm_gpu.cpp:311-321 | on a consistent registry the stash stays consistent and records each old pipeline, allocated and no longer listed, ready to be reverted |
| `DrmRefresh.PoolsOk` | src/backends/drm/drm_gpu.cpp:311-339 | the registry the search starts from is consistent, the stash can still be reverted, and the CRTC pool is distinct and drawn from the GPU's |
| `DrmUpdate.SortByHintSorted` | src/backends/drm/drm_gpu.cpp:323-328 | the atomic-mode sort yields the same connectors ordered by CRTC_ID descending |
| `DrmUpdate.ExcludeAllEffect` | src/backends/drm/drm_gpu.cpp:331-339 | exactly the connectors and CRTCs held by leased outputs leave the search pools, and exactly the pipelines of unleased lease outputs leave m_pipelines |
| `DrmRefresh.ExcludeAllShrinks` | src/backends/drm/drm_gpu.cpp:331-339 | taking leased resources out only removes, and keeps each list distinct |
| `DrmGpu.Gpu.ExcludeLeased` | src/backends/drm/drm_gpu.cpp:331-339 | the loop computes ExcludeAll and changes only m_pipelines |
| `DrmSearch.HintFirst` | src/backends/drm/drm_gpu.cpp:409-419 | the CRTC order of the atomic-mode sort is a permutation of the CRTCs |
| `DrmSearch.IndexOfCrtc` | src/backends/drm/drm_gpu.cpp:413 | the first CRTC with the connector's current CRTC id, and none iff there is none |
| `DrmSearch.SearchShape` | src/backends/drm/drm_gpu.cpp:396-442 | a non-empty result extends the accumulator by one pipeline per connector, in input order, until connectors or CRTCs run out, never using a CRTC more often than offered |
| `DrmSearch.SearchFromScratch` | src/backends/drm/drm_gpu.cpp:396-442 | a combination found from scratch pairs the first min(\|C\|, \|K\|) connectors in order with distinct CRTCs from K and passed the test |
| `DrmSearch.FirstSuccessfulBranch` | src/backends/drm/drm_gpu.cpp:435-441 | the CRTC loop returns the first branch that succeeds, and fails only if every branch fails |
| `DrmSearch.EncodersRetrySameCrtcs` | src/backends/drm/drm_gpu.cpp:433-441 | each encoder retries the same CRTCs; a connector without encoders fails its branch |
| `DrmSearch.CurrentCrtcTriedFirst` | src/backends/drm/drm_gpu.cpp:409-419 | in atomic mode the connector's current CRTC is tried first, and wins when its branch succeeds |
| `DrmSearch.LegacyTriesInOrder` | src/backends/drm/drm_gpu.cpp:409-435 | in legacy mode the CRTCs are tried in the given order |
| `DrmSearch.Place` | src/backends/drm/drm_gpu.cpp:421-427 | a placement pairs the i-th connector with the i-th CRTC |
| `DrmSearch.SearchComplete` | src/backends/drm/drm_gpu.cpp:396-442 | if some placement of the first connectors on offered CRTCs passes the test and every placed connector has an encoder, the search does not fail |
| `DrmUpdate.RevertAsWrittenFails` | src/backends/drm/drm_gpu.cpp:341-346 | a stash entry without a pipeline makes the rollback as written dereference null |
| `DrmUpdate.RevertAgrees` | src/backends/drm/drm_gpu.cpp:341-351 | when every stashed output had a pipeline, the rollback as written returns the corrected configuration and pipeline links, but leaves every output's own link as it found it |
| `DrmUpdate.RevertOk` | src/backends/drm/drm_gpu.cpp:341-351 | corrected: the rollback keeps the registry consistent |
| `DrmUpdate.RevertConfig` | src/backends/drm/drm_gpu.cpp:341-351 | corrected: the rollback returns exactly the stashed pipelines (in m_drmOutputs order, see Left out), each pipeline linked back to its output; only the links between pipelines and hardware outputs change |
| `DrmUpdate.RestoreOk` | src/backends/drm/drm_gpu.cpp:343-346 | corrected: giving one stashed output back its pipeline, on both sides of the link, keeps the registry consistent |
| `DrmUpdate.RestoreOuts` | src/backends/drm/drm_gpu.cpp:343-344 | corrected: giving one entry back sets that hardware output's pipeline to the stashed one (the code as written sets only the pipeline's side, :344) and changes no other output |
| `DrmUpdate.RestorePipes` | src/backends/drm/drm_gpu.cpp:343-344 | corrected: giving one entry back changes at most the output link of the stashed pipeline (:344), and no pipeline when the entry has none (the code as written dereferences it) |
| `DrmUpdate.RevertOutsFrame` | src/backends/drm/drm_gpu.cpp:341-346 | corrected: the rollback changes no output's kind, and nothing of a hardware output but its pipeline |
| `DrmUpdate.RevertPipesFrame` | src/backends/drm/drm_gpu.cpp:341-346 | corrected: the rollback returns the stashed pipelines in stash order and changes only their output links |
| `DrmUpdate.RevertKeeps` | src/backends/drm/drm_gpu.cpp:341-346 | corrected: the rollback changes nothing but pipelines and outputs |
| `DrmUpdate.RevertRestores` | src/backends/drm/drm_gpu.cpp:341-346 | corrected: the rollback gives every stashed hardware output back exactly the pipeline it was stashed with, or none; outputs that were not stashed keep their state |
| `DrmUpdate.RevertLeavesUnstashed` | src/backends/drm/drm_gpu.cpp:341-346 | corrected: an output that is not in the stash keeps its state through the rollback |
| `DrmUpdate.RevertRestoresStashed` | src/backends/drm/drm_gpu.cpp:341-346 | corrected: with distinct stashed outputs, each ends the rollback a hardware output with exactly the pipeline it was stashed with |
| `DrmUpdate.DiscardAllEffect` | src/backends/drm/drm_gpu.cpp:428-430 | a failed leaf destroys every one of its candidates and leaves the outputs' state alone |
| `DrmUpdate.FindOutputAfterAdopt` | src/backends/drm/drm_gpu.cpp:444-449 | findOutput answers the same before and after a candidate is created and linked |
| `DrmUpdate.AdoptStepOuts` | src/backends/drm/drm_gpu.cpp:444-458 | one pairing of commitCombination points the output findOutput returns at the new candidate and leaves every other output, every kind and every connector as it was |
| `DrmUpdate.FirstOutputFrame` | src/backends/drm/drm_gpu.cpp:471-479 | findOutput depends only on which listed outputs drive the connector |
| `DrmUpdate.AdoptKeepsUnfound` | src/backends/drm/drm_gpu.cpp:444-458 | a tracked output that findOutput returns for no pairing keeps its state through commitCombination |
| `DrmUpdate.AdoptLinksFound` | src/backends/drm/drm_gpu.cpp:444-458 | a tracked output that findOutput returns for some pairing ends up pointing at one of that leaf's candidates |
| `DrmUpdate.FailedTestDangles` | src/backends/drm/drm_gpu.cpp:421-467 | as written, after a leaf's test fails, a tracked output on one of its connectors points at a destroyed candidate |
| `DrmUpdate.RollbackAsWrittenDangles` | src/backends/drm/drm_gpu.cpp:341-346 | as written, the rollback after such a leaf leaves that output pointing at the destroyed candidate |
| `DrmUpdate.FreeLeasePipesRoutable` | src/backends/drm/drm_gpu.cpp:347-351 | the pipelines of unleased tracked lease outputs can be routed |
| `DrmUpdate.FreeLeasePipes` | src/backends/drm/drm_gpu.cpp:347-351 | exactly the pipelines of lease outputs that are not leased |
| `DrmGpu.Gpu.RevertPipelines` | src/backends/drm/drm_gpu.cpp:341-351 | corrected: the rollback computes Revert, and the configuration is the stashed pipelines followed by those of unleased lease outputs |
| `DrmGpu.Gpu.RestoreEntry` | src/backends/drm/drm_gpu.cpp:343-346 | corrected: one stash entry is given back as Restore states, the output's pipeline and the pipeline's output; the code as written sets only the pipeline's output (:344) |
| `DrmGpu.Gpu.RestoreAll` | src/backends/drm/drm_gpu.cpp:341-346 | corrected: the first rollback loop leaves the registry and the configuration that Revert computes |
| `DrmGpu.Gpu.FreeLeaseConfig` | src/backends/drm/drm_gpu.cpp:347-351 | the second rollback loop collects exactly FreeLeasePipes, in list order |
| `DrmRefresh.DeleteStashedOk` | src/backends/drm/drm_gpu.cpp:352-356 | destroying the stashed pipelines keeps the registry consistent |
| `DrmUpdate.DeleteStashed` | src/backends/drm/drm_gpu.cpp:352-356 | exactly the stashed pipelines join the destroyed set; nothing else changes |
| `DrmGpu.Gpu.DeleteOldPipelines` | src/backends/drm/drm_gpu.cpp:352-356 | the deletion loop computes DeleteStashed |
| `DrmUpdate.AdoptAllOk` | src/backends/drm/drm_gpu.cpp:444-456 | adoption keeps the registry consistent and touches nothing tracked |
| `DrmUpdate.AdoptAllGrows` | src/backends/drm/drm_gpu.cpp:444-456 | adoption creates one fresh active pipeline per pairing, in order, on that pairing's connector and CRTC; each desktop pipeline gets a live output |
| `DrmUpdate.UnplacedOutputDetached` | src/backends/drm/drm_gpu.cpp:311-357 | a tracked output whose connector the winning combination leaves out ends the update without a pipeline |
| `DrmGpu.Gpu.AdoptCombination` | src/backends/drm/drm_gpu.cpp:444-456 | the adoption loop computes AdoptAll |
| `DrmUpdate.RouteStepEffect` | src/backends/drm/drm_gpu.cpp:359-390 | a routing step switches a non-desktop pipeline off under a tracked lease output, tracks a desktop pipeline's output, and switches off the pipeline of a disabled output |
| `DrmUpdate.RouteAllOk` | src/backends/drm/drm_gpu.cpp:357-390 | routing keeps the registry consistent |
| `DrmUpdate.RouteAllEffect` | src/backends/drm/drm_gpu.cpp:357-390 | after routing, every non-desktop pipeline is off, every desktop pipeline's output is tracked, and every disabled tracked output's pipeline is off |
| `DrmUpdate.RouteAllFrame` | src/backends/drm/drm_gpu.cpp:357-390 | routing only switches pipelines off, tracks outputs and logs |
| `DrmGpu.Gpu.RoutePipelines` | src/backends/drm/drm_gpu.cpp:359-390 | the loop from the last pipeline to the first computes RouteAll |
| `DrmRefresh.UpdateNeedsResources` | src/backends/drm/drm_gpu.cpp:233-237 | the update reports success iff drmModeGetResources succeeded, and changes nothing otherwise |
| `DrmRefresh.PrepareOk` | src/backends/drm/drm_gpu.cpp:239-300 | the first half keeps the registry consistent, tracks the reconciled connectors, and hands all of them to the search |
| `DrmRefresh.UpdateConnectors` | src/backends/drm/drm_gpu.cpp:230-393 | after an update the tracked connectors are distinct, connected and reported, and every reported connected connector that is known or initialises is tracked |
| `DrmRefresh.UpdateAcceptedOk` | src/backends/drm/drm_gpu.cpp:230-393 | an accepted update of a consistent registry leaves it consistent |
| `DrmRefresh.UpdateRouted` | src/backends/drm/drm_gpu.cpp:340-390 | whether adopted or restored, every pipeline added to m_pipelines stays listed; non-desktop ones are off, desktop ones attached to tracked outputs |
| `DrmRefresh.UpdateRealises` | src/backends/drm/drm_gpu.cpp:340-390 | an adopted combination is realised exactly, one pipeline per pairing in order; a non-empty one passed the test and uses each CRTC at most once |
| `DrmGpu.Gpu.PrepareUpdate` | src/backends/drm/drm_gpu.cpp:239-300 | the first half computes Prepare |
| `DrmGpu.Gpu.NegotiateUpdate` | src/backends/drm/drm_gpu.cpp:311-390 | the second half computes Negotiate |
| `DrmGpu.Gpu.SettleCombination` | src/backends/drm/drm_gpu.cpp:340-357 | what happens to the search result computes Settle |
| `DrmGpu.Gpu.UpdateOutputs` | src/backends/drm/drm_gpu.cpp:230-393 | waitIdle, then UpdateSpec; a cursor failure forces the software cursor and success makes the lease device DRM master; the GPU stays consistent when a combination is taken, and after the corrected rollback when Owned held on entry |
| `DrmRollback.Held` | src/backends/drm/drm_gpu.cpp:311-321 | a hardware output holds exactly its pipeline, and nothing when it has none |
| `DrmRollback.LeasePipesFrom` | src/backends/drm/drm_gpu.cpp:331-339 | every pipeline held by the lease outputs belongs to one of them |
| `DrmRollback.FreeAmongLease` | src/backends/drm/drm_gpu.cpp:347-351 | the unleased lease outputs' pipelines are among the lease outputs' pipelines, none more often |
| `DrmRollback.StashedAreOutputPipes` | src/backends/drm/drm_gpu.cpp:311-321 | the stash records exactly the pipelines the hardware outputs held, in m_drmOutputs order |
| `DrmRollback.StashAllMultiset` | src/backends/drm/drm_gpu.cpp:311-321 | the stash takes each recorded pipeline out of m_pipelines once and nothing else |
| `DrmRollback.ExcludeAllMultiset` | src/backends/drm/drm_gpu.cpp:331-339 | leaving out leased resources takes each unleased lease output's pipeline out of m_pipelines once and nothing else |
| `DrmRollback.RevertedPipelines` | src/backends/drm/drm_gpu.cpp:311-357 | corrected: under Owned, the pipelines left plus the restored ones are distinct and are the old m_pipelines together with the unleased lease outputs' pipelines |
| `DrmRollback.SettleRevertedOk` | src/backends/drm/drm_gpu.cpp:341-357 | appending distinct, live restored pipelines keeps the registry consistent, and m_pipelines becomes exactly that list |
| `DrmRollback.NegotiateRevertedOk` | src/backends/drm/drm_gpu.cpp:311-357 | corrected: under Owned, a rollback leaves the registry consistent, and m_pipelines holds exactly the old pipelines and the unleased lease outputs' pipelines |
| `DrmRollback.NegotiateRevertedRestores` | src/backends/drm/drm_gpu.cpp:311-390 | corrected: after a rollback every tracked hardware output drives exactly the pipeline it drove before the update, or none |
| `DrmRollback.OutputPipesRemove` | src/backends/drm/drm_gpu.cpp:582-592 | removing a hardware output from the list removes exactly its pipeline from the held pipelines |
| `DrmRollback.LeasePipesRemove` | src/backends/drm/drm_gpu.cpp:703-711 | removing a lease output from the list removes exactly its pipeline from the held pipelines |
| `DrmRollback.RemoveOutputOwned` | src/backends/drm/drm_gpu.cpp:582-592 | removeOutput keeps Owned |
| `DrmRollback.RemoveLeaseOutputOwned` | src/backends/drm/drm_gpu.cpp:703-711 | removeLeaseOutput keeps Owned |
| `DrmRollback.TeardownOwned` | src/backends/drm/drm_gpu.cpp:276-281 | tearing down one vanished connector keeps Owned |
| `DrmRollback.TeardownAllOwned` | src/backends/drm/drm_gpu.cpp:276-284 | tearing down every vanished connector keeps Owned |
| `DrmRollback.PrepareOwned` | src/backends/drm/drm_gpu.cpp:239-300 | the lessee check, the teardown and the collecting pass keep Owned |
| `DrmRollback.UpdateRevertedOk` | src/backends/drm/drm_gpu.cpp:230-393 | corrected: an update of a consistent registry that satisfies Owned stays consistent when the search fails and the old configuration is restored |
| `EglGbmLayers.FilterMods` | src/backends/drm/egl_gbm_layer.cpp:163-175 | a modifier is kept, in order, iff the tranche lists it, the pipeline supports it and it was not attempted |
| `EglGbmLayers.FilterModifiers` | src/backends/drm/egl_gbm_layer.cpp:163-175 | the modifier loop computes FilterMods |
| `EglGbmLayers.FilterTable` | src/backends/drm/egl_gbm_layer.cpp:160-178 | a scanout table has only non-empty formats of the tranche, with supported, unattempted modifiers |
| `EglGbmLayers.FilterTableComplete` | src/backends/drm/egl_gbm_layer.cpp:160-178 | every supported, unattempted modifier of a listed format is kept |
| `EglGbmLayers.FilterFormatTable` | src/backends/drm/egl_gbm_layer.cpp:160-178 | the format loop computes FilterTable |
| `EglGbmLayers.ScanoutTranches` | src/backends/drm/egl_gbm_layer.cpp:158-181 | every scanout tranche has the pipeline's device, the scanout flag and a non-empty table; there are at most as many as EGL tranches |
| `EglGbmLayers.ScanoutTrancheOrigin` | src/backends/drm/egl_gbm_layer.cpp:158-181 | every scanout tranche is made from an EGL tranche |
| `EglGbmLayers.ScanoutTranchesComplete` | src/backends/drm/egl_gbm_layer.cpp:158-181 | every EGL tranche with a non-empty scanout table is offered |
| `EglGbmLayers.ScanoutTranchesOffer` | src/backends/drm/egl_gbm_layer.cpp:158-181 | a modifier is offered only if an EGL tranche lists it, the pipeline supports it and it was not attempted |
| `EglGbmLayers.BuildScanoutTranches` | src/backends/drm/egl_gbm_layer.cpp:158-181 | the tranche loop computes ScanoutTranches |
| `EglGbmLayers.AddAttempt` | src/backends/drm/egl_gbm_layer.cpp:157 | recording a failed buffer adds its first-plane modifier to its format's attempts and changes no other format |
| `EglGbmLayers.AddAttemptDistinct` | src/backends/drm/egl_gbm_layer.cpp:157 | recording an attempt keeps the attempt lists free of duplicates |
| `EglGbmLayers.FailedModifierNotOffered` | src/backends/drm/egl_gbm_layer.cpp:155-184 | once a modifier has failed, it is never offered for scanout again |
| `EglGbmLayers.EglGbmLayer.CurrentBuffer` | src/backends/drm/egl_gbm_layer.cpp:186-189 | the scanout buffer when there is one, otherwise the rendered buffer |
| `EglGbmLayers.EglGbmLayer.BeginFrame` | src/backends/drm/egl_gbm_layer.cpp:50-63 | drops the scanout buffer; a candidate not attempted in the last frame gets empty feedback and is forgotten |
| `EglGbmLayers.EglGbmLayer.EndFrame` | src/backends/drm/egl_gbm_layer.cpp:70-77 | a rendered frame becomes the current buffer and damage; no frame changes neither |
| `EglGbmLayers.EglGbmLayer.RenderTestBuffer` | src/backends/drm/egl_gbm_layer.cpp:92-99 | reports a change iff the current buffer changed, which needs a rendered frame |
| `EglGbmLayers.EglGbmLayer.TestBuffer` | src/backends/drm/egl_gbm_layer.cpp:84-90 | renders a test frame only when the surface does not fit, and returns the current buffer |
| `EglGbmLayers.EglGbmLayer.SendDmabufFeedback` | src/backends/drm/egl_gbm_layer.cpp:155-184 | records the attempt, then sends the candidate's feedback object the remaining scanout tranches |
| `EglGbmLayers.EglGbmLayer.Dropped` | src/backends/drm/egl_gbm_layer.cpp:127-129 | the previous candidate's feedback gets empty tranches iff it exists, differs from the new surface and has a feedback object |
| `EglGbmLayers.EglGbmLayer.Scanout` | src/backends/drm/egl_gbm_layer.cpp:110-153 | rejection changes nothing; otherwise a replaced candidate's feedback is emptied and the surface becomes the candidate; scanout succeeds iff the format is supported, the import succeeded and the test passed, taking over the surface's damage; a failed format or import is recorded and the new candidate is sent the remaining scanout tranches; a failed test sends nothing more |
| `EglGbmLayers.EglGbmLayer.ScanoutBuffer` | src/backends/drm/egl_gbm_layer.cpp:132-152 | success iff format, import and test pass; a failed format or import records the attempt and sends the candidate the remaining tranches; otherwise attempts and feedback are unchanged |
| `OutputTypes.TransformOrdinalRoundTrip` | src/abstract_output.h:264-273 | the ordinals number the eight transforms one to one |
| `OutputTypes.SubPixelOrdinalRoundTrip` | src/abstract_output.h:126-133 | the ordinals number the six subpixel layouts one to one |
| `OutputTypes.RgbRangeOrdinalRoundTrip` | src/abstract_output.h:136-141 | Automatic, Full and Limited are 0, 1 and 2, one to one |
| `OutputTypes.VrrPolicyOrdinalRoundTrip` | src/waylandoutputdevicev2.cpp:41-45 | the VRR policies and their ordinals correspond one to one |
| `OutputTypes.CapabilityWordBits` | src/abstract_output.h:118-124 | each capability has its own bit, so a capability word holds a bit iff the set holds the capability |
| `OutputTypes.WithCapability` | src/output.cpp:178-185 | setFlag sets the capability as asked and keeps every other one |
| `OutputTypes.SwapsAxesOdd` | src/output.cpp:347-354 | the quarter-turn transforms are exactly those with an odd ordinal |
| `OutputTypes.OrientateSize` | src/output.cpp:347-354 | the size is transposed under a quarter turn and unchanged otherwise, keeping its area |
| `OutputTypes.OrientateInvolution` | src/output.cpp:347-354 | orienting twice restores the size |
| `OutputTypes.LocalRect` | src/abstract_output.h:425-428 | rect() is the geometry's size anchored at the origin |
| `OutputTypes.NewGammaRamp` | src/output.cpp:20-24 | a new ramp is a zeroed table of three times the size |
| `OutputTypes.ChannelsTileTable` | src/output.cpp:31-59 | red, green and blue tile the table in that order without overlap |
| `OutputTypes.OutputUuid` | src/output.cpp:314-323 | the uuid is the name-based uuid of the colon-joined name, EISA id, model and serial number |
| `OutputTypes.PayloadInjective` | src/output.cpp:314-323 | parts without colons give different uuids for different outputs |
| `OutputTypes.PayloadAmbiguous` | src/output.cpp:314-323 | with a colon inside a part, two different outputs share a uuid |
| `Outputs.Output.constructor` | src/abstract_output.h:400-422 | a fresh output has the class's field initialisers |
| `Outputs.Output.InhibitDirectScanout` | src/output.cpp:142-146 | the inhibit count grows by one, so direct scanout is inhibited |
| `Outputs.Output.UninhibitDirectScanout` | src/output.cpp:147-151 | the count drops by one; from one it leaves direct scanout allowed |
| `Outputs.Output.PixelSize` | src/output.cpp:228-232 | orienting the pixel size gives back the mode size |
| `Outputs.QRound` | src/output.cpp:200-203 | the nearest integer, halves rounded up, as the rounding of QSize's division by a scale |
| `Outputs.Output.Geometry` | src/output.cpp:200-203 | the rectangle sits at the output's position, and each side is the pixel size divided by the scale, rounded to the nearest integer |
| `Outputs.Output.GeometryUnscaled` | src/output.cpp:200-203 | at scale 1 the geometry is as large as the pixel size |
| `Outputs.Output.OrientedPhysicalSize` | src/output.cpp:347-354 | orienting the result gives back the stored physical size |
| `Outputs.Output.Description` | src/output.cpp:295-299 | the manufacturer, one space, then the model |
| `Outputs.Output.SetCapabilityInternal` | src/output.cpp:178-185 | sets the capability as asked, keeps the others, and signals only on a change |
| `Outputs.Output.SetScale` | src/output.cpp:191-199 | stores the scale; a change signals scale and then geometry |
| `Outputs.Output.MoveTo` | src/output.cpp:215-222 | stores the position; a change signals geometry |
| `Outputs.Output.SetModes` | src/output.cpp:248-255 | stores the modes; a change signals modesChanged |
| `Outputs.Output.SetSubPixelInternal` | src/output.cpp:261-265 | stores the subpixel layout with no signal |
| `Outputs.Output.SetEnabled` | src/output.cpp:286-294 | stores the flag; a change signals enabledChanged |
| `Outputs.Output.SetCurrentModeInternal` | src/output.cpp:300-313 | stores size and rate; currentModeChanged on any change, geometryChanged only when the size changed |
| `Outputs.Output.SetTransformInternal` | src/output.cpp:355-364 | stores the transform; a change signals transform, current mode and geometry |
| `Outputs.Output.SetDpmsMode` | src/output.cpp:373-377 | the base class ignores the request |
| `Outputs.Output.SetDpmsModeInternal` | src/output.cpp:365-372 | stores the mode; a change signals dpmsModeChanged |
| `Outputs.Output.SetOverscanInternal` | src/output.cpp:426-433 | stores the overscan; a change signals overscanChanged |
| `Outputs.Output.SetVrrPolicy` | src/output.cpp:439-446 | the policy is taken, with a signal, only when it differs and the output is VRR capable |
| `Outputs.Output.SetRgbRangeInternal` | src/output.cpp:467-474 | stores the range; a change signals rgbRangeChanged |
| `Outputs.Output.SetPlaceholder` | src/output.cpp:457-461 | stores the placeholder flag |
| `Outputs.Output.SetPhysicalSizeInternal` | src/output.cpp:475-478 | stores the physical size |
| `Outputs.ApplyOutcome` | src/output.cpp:266-280 | every requested value is taken except the transform through the base-class hook and VRR on an incapable output; signals are bracketed by aboutToChange and changed |
| `Outputs.ApplyTwice` | src/output.cpp:266-280 | applying the same change set again changes nothing and emits only aboutToChange and changed |
| `Outputs.Output.ApplyPlacement` | src/output.cpp:271-273 | enabled flag and position are taken, the transform only through setTransformInternal, with the placement signals |
| `Outputs.Output.ApplyRendering` | src/output.cpp:274-276 | scale and RGB range are taken, the VRR policy only on a capable output, with the rendering signals |
| `Outputs.Output.ApplyChanges` | src/abstract_output.cpp:266-280 | the new settings and signals are ApplySettings and ApplySignals, for either transform route |
| `Outputs.FirstCurrent` | src/output.cpp:334-340 | the first mode flagged Current, and none iff no mode is |
| `Outputs.Output.Initialize` | src/output.cpp:324-346 | stores the identification ("unknown" for an empty manufacturer), the uuid, the modes, and the current mode's size and rate when there is one |
| `PlatformCore.Group` | src/core/platform.cpp:106-116 | the indices of the outputs with the wanted enabled flag, all of them, in platform order |
| `PlatformCore.ApplicationOrderPermutation` | src/core/platform.cpp:104-124 | every output is applied exactly once |
| `PlatformCore.ApplicationOrderEnabledFirst` | src/core/platform.cpp:104-124 | no disabled output is applied before an enabled one |
| `PlatformCore.ApplicationOrderStable` | src/core/platform.cpp:104-124 | within each group the platform order is kept |
| `PlatformCore.StepOnLoop` | src/core/platform.cpp:117-122 | one applyChanges call changes only the called output's settings and signals, except that every output on its render loop then reports the VRR policy it left |
| `PlatformCore.ApplyAllConcat` | src/core/platform.cpp:117-122 | applying one list of outputs and then another is applying their concatenation |
| `PlatformCore.ApplyAllSeparate` | src/core/platform.cpp:117-122 | with a render loop per output, a listed output ends as its own applyChanges leaves it from its earlier state, and an unlisted one keeps its settings and signals |
| `PlatformCore.ApplicationOrderSeparate` | src/core/platform.cpp:104-124 | with a render loop per output, the enabled-first order makes no difference: every output ends as its own applyChanges leaves it from its state before the call |
| `PlatformCore.ApplyAllKeepsCapabilities` | src/core/platform.cpp:117-122 | applying outputs never changes any output's capabilities |
| `PlatformCore.OtherLoopsKeep` | src/core/platform.cpp:117-122 | applying only outputs on other render loops leaves an output's settings as they were |
| `PlatformCore.LastOnLoopDecides` | src/core/platform.cpp:117-122 | on a render loop shared by several outputs, the last of them applied decides the VRR policy every output on the loop reports: the one it requested when it has the Vrr capability |
| `PlatformCore.LastOnLoopFrom` | src/core/platform.cpp:117-122 | the VRR policy an output on a shared loop reports is the one left by the last applied output on that loop, from the state just before that call |
| `PlatformCore.Platform.ApplyOutputChanges` | src/core/platform.cpp:104-124 | the applied log grows by ApplicationOrder (enabled outputs first, each output once); every output's settings and signals are those of applying that order to the state before the call, outputs on a shared render loop included; with a render loop per output, each output ends as its own applyChanges leaves it; the result is true |
| `PlatformCore.Platform.Partition` | src/core/platform.cpp:106-116 | the first loop splits the change sets into Group(true) and Group(false) |
| `PlatformCore.ApplicationOrderEach` | src/core/platform.cpp:104-124 | with a render loop per output, every output at once ends as its own applyChanges leaves it |
| `PlatformCore.Platform.ApplyGroups` | src/core/platform.cpp:117-122 | applying the enabled group and then the disabled group is applying their concatenation, logged in that order |
| `PlatformCore.Platform.ApplyEach` | src/core/platform.cpp:117-122 | the applied log grows by the given indices in order, and the outputs' state is that of applying them in turn |
| `PlatformCore.Platform.ApplyOne` | src/core/platform.cpp:117-122 | one applyChanges call: the called output follows its change set, outputs on its render loop report its new VRR policy, and nothing else changes |
| `PlatformCore.FindByName` | src/core/platform.cpp:125-135 | the first output with the name, and none iff no output has it |
| `PlatformCore.Platform.FindOutput` | src/core/platform.cpp:125-135 | an output is found iff one has the name, and it has that name |
| `PlatformCore.Platform.SetReady` | src/core/platform.cpp:136-144 | stores the flag; readyChanged only on a change |
| `PlatformCore.Platform.StartInteractiveWindowSelection` | src/core/platform.cpp:206-214 | without input the callback gets null at once |
| `PlatformCore.Platform.StartInteractivePositionSelection` | src/core/platform.cpp:215-223 | without input the callback gets (-1, -1) at once |
| `PlatformCore.MonotonicTime` | src/core/platform.cpp:234-245 | milliseconds of the reading, truncated to 32 bits; exact below 2^32 |
| `PlatformCore.MonotonicElapsed` | src/core/platform.cpp:234-245 | for readings less than 2^32 ms apart, the wrapped difference is the elapsed time |
| `WaylandOutputs.ToWlTransform` | src/waylandoutput.cpp:15-38 | each transform maps to the same-numbered wl_output transform |
| `WaylandOutputs.ToWlTransformInjective` | src/waylandoutput.cpp:15-38 | distinct transforms are announced as distinct wl_output transforms |
| `WaylandOutputs.ToWlSubPixel` | src/waylandoutput.cpp:39-58 | each layout maps to the same-numbered wl_output subpixel |
| `WaylandOutputs.ToWlSubPixelBijective` | src/waylandoutput.cpp:39-58 | the subpixel translation is one to one and onto |
| `WaylandOutputs.FromWlDpms` | src/waylandoutput.cpp:75-90 | the wire-to-output DPMS translation inverts the output-to-wire one |
| `WaylandOutputs.DpmsRoundTrip` | src/waylandoutput.cpp:59-90 | both round trips through the DPMS translation are the identity |
| `WaylandOutputs.Ceil` | src/waylandoutput.cpp:144-159 | std::ceil: the least integer not below x |
| `WaylandOutputs.WaylandOutput.constructor` | src/waylandoutput.cpp:91-133 | the advertised state mirrors the output: the physical size oriented by the output's transform, and the xdg_output logical position and size those of the output's geometry; done is sent once on each interface |
| `WaylandOutputs.WaylandOutput.ScheduleUpdate` | src/waylandoutput.cpp:139-143 | an update is pending |
| `WaylandOutputs.WaylandOutput.Update` | src/waylandoutput.cpp:144-159 | the advertised position, xdg_output logical size (the output's geometry), scale, transform and mode mirror the output again, and done is sent once more |
| `WaylandOutputs.WaylandOutput.HandleDpmsModeChanged` | src/waylandoutput.cpp:160-164 | the advertised DPMS mode is the output's, translated |
| `WaylandOutputs.WaylandOutput.HandleDpmsModeRequested` | src/waylandoutput.cpp:165-168 | the request reaches the output, whose base class ignores it |
| `WaylandOutputDevices.CastsReversible` | src/waylandoutputdevicev2.cpp:16-50 | every static_cast to a device enum is undone by decoding its ordinal |
| `WaylandOutputDevices.DeviceCapabilities` | src/waylandoutputdevicev2.cpp:26-40 | overscan, VRR and RGB range are advertised iff the output has them |
| `WaylandOutputDevices.DeviceCapabilitiesDropDpms` | src/waylandoutputdevicev2.cpp:26-40 | DPMS support makes no difference to the advertised capabilities |
| `WaylandOutputDevices.DeviceModeOf` | src/waylandoutputdevicev2.cpp:99-115 | a device mode keeps size and rate, and is current or preferred iff the output mode is |
| `WaylandOutputDevices.DeviceModeFlagsIndependent` | src/waylandoutputdevicev2.cpp:99-115 | each device flag depends only on its own output flag |
| `WaylandOutputDevices.WaylandOutputDevice.constructor` | src/waylandoutputdevicev2.cpp:51-96 | the device copies the output's identification and state, with the physical size oriented by the transform and modes mirrored |
| `WaylandOutputDevices.WaylandOutputDevice.UpdateModes` | src/waylandoutputdevicev2.cpp:97-118 | one device mode per output mode, in the same order |
| `WaylandOutputDevices.WaylandOutputDevice.HandleModesChanged` | src/waylandoutputdevicev2.cpp:119-123 | the modes are mirrored again |
| `WaylandOutputDevices.WaylandOutputDevice.HandleGeometryChanged` | src/waylandoutputdevicev2.cpp:124-128 | the global position is the output's |
| `WaylandOutputDevices.WaylandOutputDevice.HandleScaleChanged` | src/waylandoutputdevicev2.cpp:129-133 | the scale is the output's |
| `WaylandOutputDevices.WaylandOutputDevice.HandleEnabledChanged` | src/waylandoutputdevicev2.cpp:134-138 | the enabled flag is the output's |
| `WaylandOutputDevices.WaylandOutputDevice.HandleTransformChanged` | src/waylandoutputdevicev2.cpp:139-143 | the transform is the output's, cast |
| `WaylandOutputDevices.WaylandOutputDevice.HandleCurrentModeChanged` | src/waylandoutputdevicev2.cpp:144-148 | the current mode's size and rate are the output's |
| `WaylandOutputDevices.WaylandOutputDevice.HandleCapabilitiesChanged` | src/waylandoutputdevicev2.cpp:149-153 | the capabilities are the output's, translated |
| `WaylandOutputDevices.WaylandOutputDevice.HandleOverscanChanged` | src/waylandoutputdevicev2.cpp:154-158 | the overscan is the output's |
| `WaylandOutputDevices.WaylandOutputDevice.HandleVrrPolicyChanged` | src/waylandoutputdevicev2.cpp:159-163 | the VRR policy is the render loop's, cast |
| `WaylandOutputDevices.WaylandOutputDevice.HandleRgbRangeChanged` | src/waylandoutputdevicev2.cpp:164-168 | the RGB range is the output's, cast |
| `OutputManagement.ToTransform` | src/wayland/outputmanagement_v2_interface.cpp:138-158 | values 0..7 give the transform with that ordinal; anything else gives Normal |
| `OutputManagement.FixedSign` | src/wayland/outputmanagement_v2_interface.cpp:175-180 | a 24.8 fixed-point scale is non-positive iff its raw value is |
| `OutputManagement.OutputConfigurationV2.Pending` | src/wayland/outputmanagement_v2_interface.cpp:105-112 | a device's change set, created from the device on first use |
| `OutputManagement.OutputConfigurationV2.Put` | src/wayland/outputmanagement_v2_interface.cpp:105-112 | the device's change set is replaced and every other device keeps its own |
| `OutputManagement.OutputConfigurationV2.Enable` | src/wayland/outputmanagement_v2_interface.cpp:114-120 | enabled becomes whether the argument is exactly 1; other devices keep their sets |
| `OutputManagement.OutputConfigurationV2.SetMode` | src/wayland/outputmanagement_v2_interface.cpp:122-133 | an unknown mode changes nothing; a known one sets size and refresh rate |
| `OutputManagement.OutputConfigurationV2.SetTransform` | src/wayland/outputmanagement_v2_interface.cpp:135-162 | the device's transform becomes ToTransform of the value |
| `OutputManagement.OutputConfigurationV2.SetPosition` | src/wayland/outputmanagement_v2_interface.cpp:164-170 | the device's position becomes (x, y) |
| `OutputManagement.OutputConfigurationV2.SetScale` | src/wayland/outputmanagement_v2_interface.cpp:172-184 | a non-positive scale changes nothing; a positive one is stored |
| `OutputManagement.OutputConfigurationV2.SetOverscan` | src/wayland/outputmanagement_v2_interface.cpp:186-195 | more than 100 changes nothing; otherwise it is stored |
| `OutputManagement.OutputConfigurationV2.SetVrrPolicy` | src/wayland/outputmanagement_v2_interface.cpp:197-206 | a value past Automatic changes nothing; otherwise the decoded policy is stored |
| `OutputManagement.OutputConfigurationV2.SetRgbRange` | src/wayland/outputmanagement_v2_interface.cpp:208-217 | a value past Limited changes nothing; otherwise the decoded range is stored |
| `OutputManagement.OutputConfigurationV2.SetPrimaryOutput` | src/wayland/outputmanagement_v2_interface.cpp:219-223 | the requested primary is the device |
| `OutputManagement.FindByUuid` | src/wayland/outputmanagement_v2_interface.cpp:248-252 | the first platform output with the uuid, and none iff there is none |
| `OutputManagement.FindMode` | src/wayland/outputmanagement_v2_interface.cpp:254-262 | a mode with the requested size and rate, and none iff no mode matches |
| `OutputManagement.BuildConfig` | src/wayland/outputmanagement_v2_interface.cpp:245-273 | the built configuration only names platform outputs |
| `OutputManagement.BuildConfigFails` | src/wayland/outputmanagement_v2_interface.cpp:245-273 | the configuration is missing iff some listed device's output lacks the requested mode, in any hash order |
| `OutputManagement.FirstEnabled` | src/wayland/outputmanagement_v2_interface.cpp:291-298 | the first output enabled under the configuration, and none iff no output is |
| `OutputManagement.PrimaryAsWrittenUndefined` | src/wayland/outputmanagement_v2_interface.cpp:286-287 | disabling the current primary with no primary requested reaches the empty-optional dereference |
| `OutputManagement.PrimaryChoice` | src/wayland/outputmanagement_v2_interface.cpp:285-302 | wherever the code as written is defined, the corrected choice agrees with it |
| `OutputManagement.PrimaryChoiceEnabled` | src/wayland/outputmanagement_v2_interface.cpp:285-302 | with some output enabled, the primary is an enabled output, and an enabled requested one wins |
| `OutputManagement.ApplyOutcomes` | src/wayland/outputmanagement_v2_interface.cpp:236-309 | apply fails iff some listed device lacks its mode or no output stays enabled; on success the primary is enabled |
| `OutputManagement.OutputConfigurationV2.Apply` | src/wayland/outputmanagement_v2_interface.cpp:236-309 | the outcome is ApplySpec; the reply is already-applied, failed or applied accordingly, and the object is marked applied |
| `DecoratedClients.MaximizedVertically` | src/decorations/decoratedclient.cpp:237-241 | vertical maximisation iff the mode is vertical or full |
| `DecoratedClients.MaximizedHorizontally` | src/decorations/decoratedclient.cpp:247-251 | horizontal maximisation iff the mode is horizontal or full |
| `DecoratedClients.Maximized` | src/decorations/decoratedclient.cpp:242-246 | maximised iff the mode is full |
| `DecoratedClients.DecoratedClientImpl.IsMaximized` | src/decorations/decoratedclient.cpp:242-246 | maximised iff maximised both ways |
| `DecoratedClients.TileEdges` | src/decorations/decoratedclient.cpp:252-278 | left and right edges iff those tiles; top and bottom iff those tiles or a full-height side tile |
| `DecoratedClients.TileEdgesExtremes` | src/decorations/decoratedclient.cpp:252-278 | no tile flags give no edges; all four flags give all four edges |
| `DecoratedClients.TileEdgesWithoutSides` | src/decorations/decoratedclient.cpp:252-278 | without left or right the edges are those of top and bottom |
| `DecoratedClients.SizeSignalsShape` | src/decorations/decoratedclient.cpp:38-51 | an unchanged size is silent; otherwise width and height signals for the changed dimensions only, then one sizeChanged last |
| `DecoratedClients.DecoratedClientImpl.HandleClientGeometryChanged` | src/decorations/decoratedclient.cpp:38-51 | the cached size becomes the client's and the signals are SizeSignals |
| `TaskbarThumbnails.Int32` | effects/taskbarthumbnail/taskbarthumbnail.cpp:144-149 | narrowing a long to int wraps into the 32-bit range and keeps values already in it |
| `TaskbarThumbnails.ParseAsWrittenReadsPastEnd` | effects/taskbarthumbnail/taskbarthumbnail.cpp:149-155 | a record that passes the size check can still be read past the end |
| `TaskbarThumbnails.ParseAsWrittenShortProperty` | effects/taskbarthumbnail/taskbarthumbnail.cpp:138-144 | a property shorter than one long has its count read past the end |
| `TaskbarThumbnails.Records` | effects/taskbarthumbnail/taskbarthumbnail.cpp:146-158 | the records read extend the accumulator, and there are at most as many as the count allows |
| `TaskbarThumbnails.ParseThumbnails` | effects/taskbarthumbnail/taskbarthumbnail.cpp:138-158 | no more thumbnails than the (positive) count word says |
| `TaskbarThumbnails.RecordsAgree` | effects/taskbarthumbnail/taskbarthumbnail.cpp:146-158 | whenever the loop as written reads only inside the data it yields the bounded loop's thumbnails, and on data whose records all fit it does read only inside the data |
| `TaskbarThumbnails.ShortSizeWordRead` | effects/taskbarthumbnail/taskbarthumbnail.cpp:149-155 | a size word below five does not stop the parse: a record whose five words lie inside the property is kept |
| `TaskbarThumbnails.WithThumbs` | effects/taskbarthumbnail/taskbarthumbnail.cpp:137-156 | the window's entries become the parsed ones, with no entry when there are none; other windows are unchanged |
| `TaskbarThumbnails.TaskbarThumbnailEffect.SlotWindowDeleted` | effects/taskbarthumbnail/taskbarthumbnail.cpp:128-131 | all thumbnails on the window go |
| `TaskbarThumbnails.TaskbarThumbnailEffect.PropertyNotify` | effects/taskbarthumbnail/taskbarthumbnail.cpp:133-159 | a null window or another atom changes nothing; otherwise the window's thumbnails are replaced by the parsed ones |
| `TaskbarThumbnails.TaskbarThumbnailEffect.ReadRecords` | effects/taskbarthumbnail/taskbarthumbnail.cpp:144-158 | the record loop leaves the window with exactly the parsed thumbnails |
| `ButtonRebinds.MouseMappingContents` | src/plugins/buttonrebinds/buttonrebindsfilter.cpp:117-129 | the mouse mapping holds exactly the extra buttons whose entry is a non-empty key sequence, each bound to it |
| `ButtonRebinds.TabletEntriesGrow` | src/plugins/buttonrebinds/buttonrebindsfilter.cpp:134-146 | one tablet's entries never drop a binding, only bind non-empty sequences, and touch no other tablet |
| `ButtonRebinds.TabletMappingGrows` | src/plugins/buttonrebinds/buttonrebindsfilter.cpp:131-147 | reloading keeps every tablet binding, because the tablet mapping is not cleared, and adds only non-empty sequences |
| `ButtonRebinds.ButtonRebindsFilter.LoadConfig` | src/plugins/buttonrebinds/buttonrebindsfilter.cpp:113-152 | the mouse mapping is rebuilt, the tablet mapping extended, and the filter installed iff either is non-empty |
| `ButtonRebinds.ButtonRebindsFilter.LoadMouse` | src/plugins/buttonrebinds/buttonrebindsfilter.cpp:117-129 | the loop over ExtraButton1..24 yields MouseMappingUpTo |
| `ButtonRebinds.ButtonRebindsFilter.LoadTablets` | src/plugins/buttonrebinds/buttonrebindsfilter.cpp:131-147 | the loop over tablets yields TabletMapping |
| `ButtonRebinds.ButtonRebindsFilter.LoadTablet` | src/plugins/buttonrebinds/buttonrebindsfilter.cpp:134-146 | the loop over one tablet's buttons yields TabletEntries |
| `ButtonRebinds.ModifierKeysPresent` | src/plugins/buttonrebinds/buttonrebindsfilter.cpp:201-212 | each modifier key is sent iff its modifier is held |
| `ButtonRebinds.ModifierKeys` | src/plugins/buttonrebinds/buttonrebindsfilter.cpp:201-212 | no more than the four modifier keys are sent ahead of the key |
| `ButtonRebinds.KeyEventsOf` | src/plugins/buttonrebinds/buttonrebindsfilter.cpp:196-199 | one key event per code, all with the same state and time |
| `ButtonRebinds.KeySequenceEventsShape` | src/plugins/buttonrebinds/buttonrebindsfilter.cpp:177-216 | only the first chord counts; the present modifiers come first and the key last, all with the given state and time |
| `ButtonRebinds.ButtonRebindsFilter.SendKeySequence` | src/plugins/buttonrebinds/buttonrebindsfilter.cpp:177-216 | succeeds iff the sequence is non-empty and translates, and then emits KeySequenceEvents |
| `ButtonRebinds.ButtonRebindsFilter.PointerEvent` | src/plugins/buttonrebinds/buttonrebindsfilter.cpp:154-167 | only presses and releases with some mouse binding are consumed, by sending the button's sequence |
| `ButtonRebinds.ButtonRebindsFilter.TabletPadButtonEvent` | src/plugins/buttonrebinds/buttonrebindsfilter.cpp:169-175 | consumed only with some tablet binding, by sending the pad button's sequence |
| `PopupInputFilters.RectContainsBounds` | src/popup_input_filter.cpp:56-62 | an empty rectangle contains no point; a positive one contains exactly its half-open span |
| `PopupInputFilters.ClientRect` | src/popup_input_filter.cpp:61 | the client rectangle is the client geometry translated by the window position |
| `PopupInputFilters.CancelsPopupsInsideClient` | src/popup_input_filter.cpp:51-64 | inside the client area of the popup's own application a press goes through; undecorated windows never cancel |
| `PopupInputFilters.PopupsDone` | src/popup_input_filter.cpp:119-125 | popupDone goes to every popup, newest first |
| `PopupInputFilters.PopupsDoneEach` | src/popup_input_filter.cpp:119-125 | every tracked popup is told, each exactly once |
| `PopupInputFilters.ClientAdded` | src/popup_input_filter.cpp:27-38 | a window is tracked iff it was tracked or has a popup grab, appended at most once |
| `PopupInputFilters.ClientAddedNoDup` | src/popup_input_filter.cpp:27-38 | adding never tracks a window twice |
| `PopupInputFilters.RemoveOneDropsFirst` | src/popup_input_filter.cpp:40-43 | removeOne drops exactly the first occurrence and keeps the rest in order |
| `PopupInputFilters.PopupInputFilter.HandleClientAdded` | src/popup_input_filter.cpp:27-38 | the list becomes ClientAdded and stays duplicate-free |
| `PopupInputFilters.PopupInputFilter.HandleClientRemoved` | src/popup_input_filter.cpp:40-43 | the window is no longer tracked |
| `PopupInputFilters.PopupInputFilter.CancelPopups` | src/popup_input_filter.cpp:119-125 | the list is emptied and PopupsDone of the old list is emitted |
| `PopupInputFilters.PopupInputFilter.PointerEvent` | src/popup_input_filter.cpp:44-69 | consumed iff popups are tracked and a press cancels them; then all of them are dismissed |
| `PopupInputFilters.PopupInputFilter.KeyEvent` | src/popup_input_filter.cpp:71-91 | with a newest popup that has a surface, focus moves to it and the key is passed on |
| `PopupInputFilters.PopupInputFilter.TouchDown` | src/popup_input_filter.cpp:93-117 | consumed iff popups are tracked and the touch cancels them; then all are dismissed |
| `IdleDetectors.Initial` | src/idledetector.cpp:13-23 | a new detector is not inhibited, its timer runs, nothing emitted |
| `IdleDetectors.InitialConsistent` | src/idledetector.cpp:13-23 | the initial state satisfies the detector invariant |
| `IdleDetectors.SetInhibitedConsistent` | src/idledetector.cpp:37-52 | setInhibited keeps idle and resumed alternating, idle first, with idle last iff the timer ran out uninhibited |
| `IdleDetectors.ActivityConsistent` | src/idledetector.cpp:54-62 | activity keeps the invariant |
| `IdleDetectors.TimeoutConsistent` | src/idledetector.cpp:13-23 | the timer's expiry keeps the invariant |
| `IdleDetectors.SetInhibitedEffect` | src/idledetector.cpp:37-52 | setting the same value is a no-op; inhibiting stops the timer and reports resumed iff the timer had run out; uninhibiting restarts it silently |
| `IdleDetectors.ActivityEffect` | src/idledetector.cpp:54-62 | inhibited activity does nothing; otherwise the timer restarts and resumed is reported iff it had run out |
| `IdleDetectors.InhibitedSilent` | src/idledetector.cpp:37-62 | an inhibited detector has no running timer and emits nothing on activity |
| `IdleDetectors.IdleDetector.constructor` | src/idledetector.cpp:13-23 | a single-shot timer with the given interval, started |
| `IdleDetectors.IdleDetector.SetInhibited` | src/idledetector.cpp:37-52 | the new state is SetInhibitedSpec of the old, and the invariant holds |
| `IdleDetectors.IdleDetector.Activity` | src/idledetector.cpp:54-62 | the new state is ActivitySpec of the old, and the invariant holds |
| `IdleDetectors.IdleDetector.Timeout` | src/idledetector.cpp:13-23 | the expiry emits idle and stops the timer, keeping the invariant |

## Left out

- I/O and system calls are not performed; their answers are parameters. This covers drmGetCap, drmModeGetResources, connector and plane probes, the atomic test commit, poll, clock_gettime, drmModeListLessees, drmModeCreateLease and drmModeRevokeLease, and the X property read. A failing clock_gettime and a NULL lessee list are not modelled.
- Floating point: scales are reals, and `wl_fixed_to_double` is exact division by 256.
- Timers: the idle detector's timer and the wl_output update timer are modelled as a running flag plus the step that fires them. The input redirection's registration of idle detectors is not part of this model.
- Hash iteration order: `QHash` iteration in the output-management apply loop is a parameter, and BuildConfigFails holds for every order. `QMap` key order in the dmabuf feedback is the order of a set. The `QMap` of stashed pipelines in updateOutputs is keyed by output pointer; the model walks it in m_drmOutputs order (see DrmUpdate.RevertConfig).
- `OutputConfiguration::changeSet` defaults and the device interfaces' default enabled flag and current mode are parameters or left at their defaults.
- Toolkit helpers are parameters: `QKeySequence::fromString`, `QString::toUInt`, keysym and keycode translation, the toplevel under a position, belongToSameApplication, the surface of a window.
- Forwarding a key to the input method or the Wayland server is logged as one KeyForwarded event.
- Rendering (startRendering/endRendering), dmabuf import and the scanout test commit are parameters of the EGL/GBM layer. texture(), aboutToStartPainting and the currentDamage getter are not modelled.
- `QMap::operator[]` in sendDmabufFeedback inserts an empty modifier list for a format it only reads. The model does not store those entries, which no lookup can tell apart. attemptedFormats is never cleared, in the model as in the code.
- Failed branches of findWorkingCombination: the transient outputs that commitCombination creates, announces and deletes are not modelled. Only the adoption of the winning combination is.
- DrmSearch.HintFirst: the atomic-mode CRTC sort uses a comparator that is not a strict weak ordering, so the C++ result is unspecified. The model moves the connector's current CRTC first and keeps the rest in order, and states only that the result is a permutation.
- DrmUpdate.SortByHintSorted: `std::sort` of connectors is not stable, so the order of connectors with equal CRTC_ID hints is unspecified; the model puts them in reverse input order (`InsertByHint` places a connector after every one whose hint is at least its own).
- Property updates of CRTCs and planes (updateProperties) and output->updateModes carry no state in the model beyond a log entry.
- Destruction of the GPU, EGL backend bookkeeping, the gbm device and EGL streams detection are not modelled.
- The DRM pipeline's own commit logic and DrmPipeline::setup are not part of this model, and neither is the pipeline's test commit: the search takes the test as a parameter and is a pure function, so the links each tested leaf sets (drm_gpu.cpp:444-458) and the destruction of failed candidates (drm_gpu.cpp:428-430) are modelled only by the as-written members of the second row under Findings.
- DrmUpdate.RevertConfig: models the corrected rollback, which gives each stashed output its pipeline back (both sides of the link). As written, drm_gpu.cpp:344 sets only the pipeline's side, so an output keeps whatever its last tested leaf pointed it at, a destroyed candidate (see Findings).
- DrmGpu.Gpu.RevertPipelines: computes the corrected rollback of DrmUpdate.RevertConfig, not the one written at drm_gpu.cpp:343-345.
- DrmRollback.NegotiateRevertedOk: is about the corrected rollback, starting from a search that leaves no links behind; the as-written state, in which tested outputs point at destroyed candidates, is the subject of DrmUpdate.RollbackAsWrittenDangles.
- DrmRollback.UpdateRevertedOk: is about the corrected rollback, for the reason given under DrmRollback.NegotiateRevertedOk.
- DrmGpu.Gpu.UpdateOutputs: runs the corrected rollback and a search without side effects on outputs; it does not reproduce the dangling output links of the code as written (see Findings).
- Wayland enum wire values are taken from the protocol's declaration order.
- Outputs.Output.constructor: the render loop, EDID and effect screen are carried as plain values.
- WaylandOutputs.WaylandOutput.constructor: requires a non-zero scale, because the geometry divides the pixel size by it and QSize's division asserts a non-null divisor; Qt's fuzzy test (a divisor within 1e-12 of zero) is not modelled.
- WaylandOutputs.WaylandOutput.Update: requires a non-zero scale, for the same division as WaylandOutputs.WaylandOutput.constructor.
- Outputs.Output.Geometry: rounds with exact reals; the double-precision division and qRound's int conversion are not modelled.
- WaylandOutputs.WaylandOutput.HandleDpmsModeRequested: the base class ignores the request, so only "nothing changes" is stated; overriding backends are not part of this model.
- TaskbarThumbnails.Int32: a long is taken as 8 bytes, as on 64-bit platforms.
- DrmUpdate.RevertConfig: besides, the code restores the stashed pipelines by walking a `QMap` keyed by `DrmOutput*`, so their order in m_pipelines is pointer order. The model restores them in m_drmOutputs order. The set of restored pipelines and each pipeline's link back to its output are the same.
- DrmGpu.Gpu.RevertPipelines: restores in m_drmOutputs order instead of the `QMap`'s pointer order, for the reason given under DrmUpdate.RevertConfig.
- DrmUpdate.RouteStep: decides desktop or non-desktop by the flag a pipeline recorded when it was created; the code reads the connector's current flag (drm_gpu.cpp:362), which updateProperties refreshes on every update (drm_gpu.cpp:270). The two agree for every pipeline of an adopted combination (AdoptedAs ties the recorded flag to the connector of this update). They can differ only for a pipeline restored by a rollback whose connector changed its non-desktop property since the pipeline was created.
- DrmUpdate.RouteStepEffect: routes by the recorded flag, for the reason given under DrmUpdate.RouteStep.
- DrmUpdate.RouteAllEffect: routes by the recorded flag, for the reason given under DrmUpdate.RouteStep.
- DrmGpu.Gpu.RoutePipelines: routes by the recorded flag, for the reason given under DrmUpdate.RouteStep.
- DrmUpdate.FailedTestAsWritten: a failed candidate without any output makes the code emit outputDisabled with a null output (drm_gpu.cpp:462-463); the model's log cannot name a null output and records nothing for it.
- DrmGpu.Gpu.CheckLessees: drmModeListLessees can return NULL, which the code dereferences unchecked (drm_gpu.cpp:240-244). The model always receives a list of lessee ids, so that failure path is not modelled.
- DrmRefresh.LesseeCheck: like DrmGpu.Gpu.CheckLessees, it takes the kernel's lessee list as always present.
- DrmGpu.Gpu.UpdateOutputs: the consistency of the GPU after a rollback is proved under Owned (which tracked object holds which pipeline) holding on entry. The update's first half is proved to keep Owned, but it is not proved to hold again after a combination is adopted, so it is not part of Gpu.Valid.
- DrmRefresh.UpdateAcceptedOk: covers an update whose combination is taken; the rollback case is DrmRollback.UpdateRevertedOk, under Owned.
- TaskbarThumbnails.WithThumbs: `QMultiHash::values` returns a window's thumbnails newest first, and the model keeps them in parse order. Only the order differs; the thumbnails held are the same.
- TaskbarThumbnails.TaskbarThumbnailEffect.ReadRecords: keeps parse order instead of the `QMultiHash`'s newest-first order, as for TaskbarThumbnails.WithThumbs.

## Findings

| source | as written | input that shows it | evidently intended | confidence | as-written member | corrected member |
|---|---|---|---|---|---|---|
| src/backends/drm/drm_gpu.cpp:341-346 | the rollback after a failed search calls `setOutput` on every stashed pipeline, including the null pipeline of an output that had none | an update whose winning combination leaves out a tracked output's connector (UnplacedOutputDetached), then an update whose search fails | skip stash entries without a pipeline | not executed | `DrmUpdate.RevertAsWrittenFails` | `DrmUpdate.RevertConfig` |
| src/backends/drm/drm_gpu.cpp:444-467 | a tested leaf points every tracked output on its connectors at its candidate (:449); a failed leaf's candidates are destroyed (:428-430); the rollback then sets only the restored pipelines' side (:344), so the outputs keep pointing at destroyed candidates, which the next update stashes (:318-319) and, once a combination is taken, destroys again (:353-355) | a tracked output on a connector whose only pairing's test fails, so the search fails and rolls back | the rollback also sets each stashed output's pipeline (`it.key()->setPipeline(it.value())`, null included) | not executed | `DrmUpdate.RollbackAsWrittenDangles` | `DrmRollback.NegotiateRevertedRestores` |
| src/wayland/outputmanagement_v2_interface.cpp:286-287 | `*primaryOutput` is dereferenced whenever the current primary ends up disabled, even when no primary was requested | a configuration that disables the current primary and never calls set_primary_output | consult the requested device only when one was requested, else fall back to the first enabled output | not executed | `OutputManagement.PrimaryAsWrittenUndefined` | `OutputManagement.PrimaryChoiceEnabled` |
| effects/taskbarthumbnail/taskbarthumbnail.cpp:139-155 | the count word is read from a property shorter than one long, and a record's five words are read after a size check that does not guarantee them | a 4-byte property; or a 48-byte property [1, 5, 7, 0, 0, 10] | read only records whose size word and five data words lie inside the property, with the size check unchanged | not executed | `TaskbarThumbnails.ParseAsWrittenReadsPastEnd` | `TaskbarThumbnails.RecordsAgree` |
