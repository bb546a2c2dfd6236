# Apps window of the Limelight PC client, modelled in Dafny

This project models the decision logic of `AppsFrame`, the window in which the
user picks a host application to stream. The window does four things:

- **Discovery (`fetchApps`).** It asks the host which game is running. If one
  is running, it resumes it and returns an empty catalog. Otherwise it returns
  the host's app list. Any I/O or XML-parse failure becomes an empty catalog.
- **Completion (the background task's `done()`).** It empties the selector and
  refills it with the fetched names in order. It puts every fetched app into
  the `apps` map under its name. A failure to take the task's result changes
  nothing.
- **Launch button.** It looks the selected name up in `apps`. A hit is a
  remote launch; a miss (no selection, the initial "Steam" placeholder, or an
  unknown name) is the default hand-off.
- **`launchApp` / `launchSteam`.** A non-zero session handle from the launch
  call continues exactly as the default hand-off does. That hand-off hides the
  window, then starts streaming from the host. A zero handle or a failed call
  does nothing further.

Every remote call is an input `Call<T>` = `Ok(value)` or `Err(Transport | Protocol)`.
Every side effect is an entry in an action trace: `QueryCurrentGame`,
`ListApps`, `Resume`, `LaunchCall(id, width, height, refreshRate)`, `Hide`,
`CreateInstance(host)`. The window's state is
`State(items, index, visible)`. Each operation is a pure function from the
state and the call outcomes to a new state and a trace.

Files, one module each: `remote.dfy` (apps, configuration, call outcomes),
`trace.dfy` (actions), `selection_index.dfy` (the name index and the selector's
names), `apps_frame.dfy` (the operations), `apps_frame_properties.dfy`
(properties relating several calls), `session.dfy` (sequences of events and the
invariants they keep), `scenarios.dfy` (concrete situations).

Three behaviours of the window are worth stating plainly:

- The window never clears `apps` (lines 44 and 67-68). Names absent from a
  later fetch keep their old entries (`CompleteKeepsStaleEntries`). No listed
  name reaches such a stale entry: every name the selector lists after a
  completion resolves exactly as it would against a freshly built index
  (`CompleteListedAsIfRebuilt`). A selection that is not a listed item can
  still resolve to a stale entry; the model takes the selection as an input and
  does not restrict it to listed items.
- A fetch failure is an empty catalog. It empties the selector and leaves the
  index as it was.
- A failure of `resumeApp` is caught by the same handlers as the other calls.
  Either way the result is the empty catalog.

## Model

| member | source | states |
|---|---|---|
| AppsFrame.Fetch | src/com/limelight/gui/AppsFrame.java:121-138 | the current game is queried exactly once, first, and the trace holds nothing but that query, the list request and the resume; a running game (non-zero id) gives exactly one resume, no list request and an empty catalog; no game plus a successful list call returns that list unchanged; a failure of either call gives the empty catalog; a non-empty catalog happens only when no game runs and the list call returned it; resume happens iff a game runs and the list is requested iff none does |
| AppsFrameProperties.FetchIgnoresCatalogWhenActive | src/com/limelight/gui/AppsFrame.java:124-126 | with a game running, the result of discovery does not depend on what the host's catalog would have been, and the catalog is empty |
| AppsFrame.Complete | src/com/limelight/gui/AppsFrame.java:63-76 | a failed retrieval leaves the state unchanged; a delivered catalog leaves the selector listing exactly the fetched names in fetched order (the placeholder is gone, and an empty catalog leaves it empty); the index keys become the old keys plus the fetched names; visibility is untouched |
| AppsFrame.FetchCycle | src/com/limelight/gui/AppsFrame.java:58-78 | the background fetch followed by its completion: the trace is the fetch's remote calls; a failed retrieval keeps the state; otherwise the fetched catalog is completed into the state |
| SelectionIndex.PutAll | src/com/limelight/gui/AppsFrame.java:67-68 | putting the fetched apps into the map keeps every old key and adds every fetched name, and nothing else |
| SelectionIndex.PutAllLastWriteWins | src/com/limelight/gui/AppsFrame.java:67-68 | after the puts, a name maps to the last fetched app that carries it |
| SelectionIndex.PutAllKeepsUntouched | src/com/limelight/gui/AppsFrame.java:67-68 | a key that no fetched app carries keeps its old entry |
| SelectionIndex.PutAllIndependentOfBase | src/com/limelight/gui/AppsFrame.java:67-68 | what a fetched name maps to after the puts does not depend on the map's earlier contents |
| SelectionIndex.LastOfNameExists | src/com/limelight/gui/AppsFrame.java:67-68 | every fetched name has a last fetched app carrying it, at or after any occurrence |
| AppsFrameProperties.CompleteLastWriteWins | src/com/limelight/gui/AppsFrame.java:65-70 | after a delivered catalog every fetched name resolves to the last fetched app with that name |
| AppsFrameProperties.CompleteKeepsStaleEntries | src/com/limelight/gui/AppsFrame.java:66-70 | a name indexed before the fetch and absent from it keeps its entry, and the selector no longer lists it |
| AppsFrameProperties.CompleteListedAsIfRebuilt | src/com/limelight/gui/AppsFrame.java:66-70 | every name the selector lists after a completion resolves exactly as it would in a fresh window that received the same catalog |
| AppsFrameProperties.CompleteFromInitialIndexesExactlyFetched | src/com/limelight/gui/AppsFrame.java:55-70 | from a fresh window, the index keys after a completion are exactly the fetched names, and the "Steam" placeholder is listed only if an app of that name was fetched |
| AppsFrame.Resolve | src/com/limelight/gui/AppsFrame.java:83-85 | the selection resolves iff a name is selected and is a key of the index, and then to that key's entry |
| AppsFrame.Launch | src/com/limelight/gui/AppsFrame.java:82-90 | launching never changes the selector or the index; a selected name found in the index makes exactly one launch call, with that app's id and the configured width, height and refresh rate; any other selection makes no launch call and performs exactly the hand-off; the hand-off to streaming happens iff the selection did not resolve or the session handle is non-zero; the window is visible afterwards iff it was before and no hand-off happened |
| AppsFrameProperties.LaunchBeforeFetchFallsBack | src/com/limelight/gui/AppsFrame.java:82-89 | before any fetch completes, every selection, including the placeholder and none, takes the default hand-off without a launch call |
| AppsFrame.LaunchApp | src/com/limelight/gui/AppsFrame.java:140-157 | the first and only launch call carries the app's id and the configuration's width, height and refresh rate; a non-zero handle then gives exactly the default hand-off's state and actions; a zero handle or a failed call leaves the state unchanged and performs nothing else |
| AppsFrame.LaunchSteam | src/com/limelight/gui/AppsFrame.java:159-163 | the hand-off hides the window, then starts streaming from the host; it makes no launch call and leaves the selector and index alone |
| AppsFrameProperties.SuccessConvergesWithFallback | src/com/limelight/gui/AppsFrame.java:146-150 | a launch with a non-zero handle ends in the same state as the fallback, with the same actions preceded only by its launch call |
| AppsFrameProperties.FailedLaunchIsNoOp | src/com/limelight/gui/AppsFrame.java:144-156 | a zero handle or a failed launch call leaves the state as it was: no hide and no hand-off |
| Session.Step | src/com/limelight/gui/AppsFrame.java:63-90 | after any single event the window is visible iff it was visible before and the event did not hand off to streaming |
| Session.StepKeepsBacked | src/com/limelight/gui/AppsFrame.java:63-90 | any single event keeps every listed item resolvable in the index, or the placeholder-only state |
| Session.RunKeepsBacked | src/com/limelight/gui/AppsFrame.java:63-90 | any sequence of completions and Launch presses keeps every listed item resolvable in the index, unless only the placeholder is listed over an empty index |
| Session.RunHidesOnlyOnHandOff | src/com/limelight/gui/AppsFrame.java:159-163 | over any sequence of events the window ends hidden iff it started hidden or some step handed off to streaming |
| Session.ListedItemLaunches | src/com/limelight/gui/AppsFrame.java:83-86 | once the index is non-empty, picking any listed item makes exactly one launch call, with that item's app |
| Session.FromInitialStaysBacked | src/com/limelight/gui/AppsFrame.java:44-70 | starting from the fresh window, the selector never lists a name the index cannot resolve, apart from the initial placeholder |

## Left out

- Swing construction, layout, centring, sizing and the window title (lines 51-56 and 93-118). Only the placeholder item, the initial visibility and the selector's item list are modelled.
- The `SwingWorker` threading (lines 58-78). A fetch and its completion are one sequential step, `FetchCycle`. Events are applied in the order the event thread delivers them.
- Which item the combo box selects after it is refilled. The selection is an input to `Launch`; `None` stands for a `null` selected item.
- The internals of `NvHTTP`: the transport, the XML parsing and the request formats. Each call is an abstract `Ok`/`Err` outcome.
- The outcome of `resumeApp`. Both success and a caught exception end in the empty catalog, so it is not an input.
- `PreferencesManager.getPreferences` and `Limelight.createConfiguration`. Their result is the `Config` input (width, height, refresh rate).
- `Limelight.createInstance`. It is the opaque `CreateInstance(host)` action.
- Logging and `System.out`/`System.err` output.
- Unchecked exceptions thrown inside the fetch's remote calls. `doInBackground` turns them into an `ExecutionException` that the completion catches (line 73); the model shows them only as the `Broken` retrieval failure.
- Unchecked exceptions thrown by the launch call (line 146). The handlers at lines 152-156 do not catch them, so they escape the Launch button's handler on the event thread. Their effect on the window matches the model's `Err` outcome of the launch call: nothing changes and there is no hand-off.
- A `null` app name from the host. Names are always strings here.
