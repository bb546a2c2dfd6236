/** The apps window's decision logic: discover the host's catalog (or resume
    the running game), fill the selector and the name index from it, and turn
    a press of Launch into a remote launch or the default hand-off. Every
    operation is a pure function from the window's state and the outcomes of
    its remote calls to a new state and the trace of side effects. */
module AppsFrame {
  import opened Remote
  import opened Trace
  import opened SelectionIndex

  /** The selector's only item until the first fetch completes. */
  const Placeholder: string := "Steam"

  /** The window: the selector's items, the name index, and whether the window shows. */
  datatype State = State(items: seq<string>, index: map<string, App>, visible: bool)

  /** A state after one operation together with the side effects it performed. */
  datatype Transition = Transition(state: State, trace: seq<Action>)

  /** What the background fetch returns, with the remote calls it made. */
  datatype Fetched = Fetched(catalog: seq<App>, trace: seq<Action>)

  /** Why taking the background task's result can fail: the waiting thread
      was interrupted, or the task itself ended by throwing. */
  datatype RetrievalFailure = Interrupted | Broken

  /** The result the completion handler takes from the finished background task. */
  datatype Delivery = Delivered(apps: seq<App>) | Failed(reason: RetrievalFailure)

  /** The window as first shown: the placeholder item, an empty index. */
  const Initial: State := State([Placeholder], map[], true)

  /** Catalog discovery. A running game is resumed and no catalog is
      requested; otherwise the host's catalog is returned as it came. Any
      failure of either call yields the empty catalog instead of an error. */
  function Fetch(currentGame: Call<int32>, appList: Call<seq<App>>): (r: Fetched)
    ensures |r.trace| >= 1 && r.trace[0] == QueryCurrentGame
    ensures multiset(r.trace)[QueryCurrentGame] == 1
    ensures forall a :: a in r.trace ==> a == QueryCurrentGame || a == ListApps || a == Resume
    ensures currentGame.Ok? && currentGame.value != 0 ==>
              r.catalog == [] && multiset(r.trace)[Resume] == 1 && ListApps !in r.trace
    ensures currentGame == Ok(0) && appList.Ok? ==> r.catalog == appList.value
    ensures currentGame.Err? || appList.Err? ==> r.catalog == []
    ensures r.catalog != [] ==> currentGame == Ok(0) && appList == Ok(r.catalog)
    ensures Resume in r.trace <==> currentGame.Ok? && currentGame.value != 0
    ensures ListApps in r.trace <==> currentGame == Ok(0)
  {
    match currentGame
    case Err(_) => Fetched([], [QueryCurrentGame])
    case Ok(game) =>
      if game != 0 then
        Fetched([], [QueryCurrentGame, Resume])
      else
        match appList
        case Ok(list) => Fetched(list, [QueryCurrentGame, ListApps])
        case Err(_) => Fetched([], [QueryCurrentGame, ListApps])
  }

  /** The completion handler. On a delivered catalog the selector is emptied
      and refilled with the fetched names in order, and every fetched entry is
      put into the index; on a failed retrieval nothing changes. */
  function Complete(s: State, d: Delivery): (r: State)
    ensures r.visible == s.visible
    ensures d.Failed? ==> r == s
    ensures d.Delivered? ==> |r.items| == |d.apps|
    ensures d.Delivered? ==> forall i :: 0 <= i < |d.apps| ==> r.items[i] == d.apps[i].name
    ensures d.Delivered? ==> r.index.Keys == s.index.Keys + NameSet(d.apps)
  {
    match d
    case Failed(_) => s
    case Delivered(fetched) => s.(items := Names(fetched), index := PutAll(s.index, fetched))
  }

  /** The background fetch followed by its completion, as one sequential step.
      `retrieval` is `Some` when taking the task's result fails. */
  function FetchCycle(s: State, currentGame: Call<int32>, appList: Call<seq<App>>,
                      retrieval: Option<RetrievalFailure>): (r: Transition)
    ensures r.trace == Fetch(currentGame, appList).trace
    ensures retrieval.Some? ==> r.state == s
    ensures retrieval.None? ==> r.state == Complete(s, Delivered(Fetch(currentGame, appList).catalog))
  {
    var fetched := Fetch(currentGame, appList);
    var d := match retrieval
             case None => Delivered(fetched.catalog)
             case Some(why) => Failed(why);
    Transition(Complete(s, d), fetched.trace)
  }

  /** The default hand-off: hide the window, then start streaming from `host`. */
  function LaunchSteam(s: State, host: string): (r: Transition)
    ensures !r.state.visible
    ensures r.state.items == s.items && r.state.index == s.index
    ensures r.trace == HandOff(host)
    ensures LaunchCalls(r.trace) == []
  {
    Transition(s.(visible := false), HandOff(host))
  }

  /** The launch call for `app` with the configured width, height and refresh rate. */
  function LaunchCallFor(app: App, cfg: Config): Action
  {
    LaunchCall(app.id, cfg.width, cfg.height, cfg.refreshRate)
  }

  /** A session handle signals a started game only when it is non-zero. */
  predicate Started(launched: Call<int32>)
  {
    launched.Ok? && launched.value != 0
  }

  /** Remote launch of `app`. A non-zero session handle continues exactly as
      the default hand-off does; a zero handle or a failed call stops silently
      with the window still showing. */
  function LaunchApp(s: State, app: App, cfg: Config, launched: Call<int32>, host: string): (r: Transition)
    ensures |r.trace| >= 1 && r.trace[0] == LaunchCallFor(app, cfg)
    ensures LaunchCalls(r.trace) == [LaunchCallFor(app, cfg)]
    ensures Started(launched) ==>
              r.state == LaunchSteam(s, host).state && r.trace[1..] == LaunchSteam(s, host).trace
    ensures !Started(launched) ==> r.state == s && r.trace == [LaunchCallFor(app, cfg)]
  {
    var call := [LaunchCallFor(app, cfg)];
    if Started(launched) then
      var handOff := LaunchSteam(s, host);
      LaunchCallsAppend(call, handOff.trace);
      Transition(handOff.state, call + handOff.trace)
    else
      Transition(s, call)
  }

  /** The entry the selected name resolves to in the index, if any. */
  function Resolve(s: State, selected: Option<string>): (r: Option<App>)
    ensures r.Some? <==> selected.Some? && selected.value in s.index
    ensures r.Some? ==> r.value == s.index[selected.value]
  {
    if selected.Some? && selected.value in s.index then Some(s.index[selected.value]) else None
  }

  /** The Launch button: a selected name found in the index is launched on the
      host; anything else (no selection, the placeholder, a name not yet
      fetched) takes the default hand-off. */
  function Launch(s: State, selected: Option<string>, cfg: Config, launched: Call<int32>,
                  host: string): (r: Transition)
    ensures r.state.items == s.items && r.state.index == s.index
    ensures selected.Some? && selected.value in s.index ==>
              LaunchCalls(r.trace) == [LaunchCallFor(s.index[selected.value], cfg)]
    ensures !(selected.Some? && selected.value in s.index) ==>
              LaunchCalls(r.trace) == [] && r.trace == HandOff(host) && !r.state.visible
    ensures CreateInstance(host) in r.trace <==>
              !(selected.Some? && selected.value in s.index) || Started(launched)
    ensures r.state.visible <==> s.visible && CreateInstance(host) !in r.trace
  {
    match Resolve(s, selected)
    case Some(app) => LaunchApp(s, app, cfg, launched, host)
    case None => LaunchSteam(s, host)
  }
}
