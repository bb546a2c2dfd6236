/** The apps window over its lifetime: a sequence of fetch completions and
    Launch presses, applied in the order the event thread delivers them. */
module Session {
  import opened Remote
  import opened Trace
  import opened AppsFrame

  /** One event on the window's event thread, with the outcomes of the remote
      calls it makes and the configuration in force when it happens. */
  datatype Event =
    | FetchFinished(currentGame: Call<int32>, appList: Call<seq<App>>, retrieval: Option<RetrievalFailure>)
    | LaunchPressed(selected: Option<string>, cfg: Config, launched: Call<int32>)

  function Step(s: State, e: Event, host: string): (r: Transition)
    ensures r.state.visible <==> s.visible && CreateInstance(host) !in r.trace
  {
    match e
    case FetchFinished(game, list, retrieval) => FetchCycle(s, game, list, retrieval)
    case LaunchPressed(selected, cfg, launched) => Launch(s, selected, cfg, launched, host)
  }

  /** Applies `events` in order, concatenating the traces. */
  function Run(s: State, events: seq<Event>, host: string): (r: Transition)
    decreases |events|
  {
    if |events| == 0 then Transition(s, [])
    else
      var first := Step(s, events[0], host);
      var rest := Run(first.state, events[1..], host);
      Transition(rest.state, first.trace + rest.trace)
  }

  /** Every item the selector lists resolves in the index, unless the window
      still shows only the placeholder over an empty index. */
  ghost predicate Backed(s: State)
  {
    || (s.items == [Placeholder] && s.index == map[])
    || forall i :: 0 <= i < |s.items| ==> s.items[i] in s.index
  }

  lemma StepKeepsBacked(s: State, e: Event, host: string)
    requires Backed(s)
    ensures Backed(Step(s, e, host).state)
  {
    if e.FetchFinished? && e.retrieval.None? {
      var fetched := Fetch(e.currentGame, e.appList).catalog;
      var r := Complete(s, Delivered(fetched));
      forall i | 0 <= i < |r.items| ensures r.items[i] in r.index {
        assert fetched[i] in fetched;
      }
    }
  }

  /** The selector never lists a name the index cannot resolve, except the
      placeholder before the first catalog arrives. */
  lemma {:induction false} RunKeepsBacked(s: State, events: seq<Event>, host: string)
    requires Backed(s)
    ensures Backed(Run(s, events, host).state)
    decreases |events|
  {
    if |events| > 0 {
      StepKeepsBacked(s, events[0], host);
      RunKeepsBacked(Step(s, events[0], host).state, events[1..], host);
    }
  }

  /** The window disappears exactly when some step handed off to streaming. */
  lemma {:induction false} RunHidesOnlyOnHandOff(s: State, events: seq<Event>, host: string)
    ensures Run(s, events, host).state.visible <==>
              s.visible && CreateInstance(host) !in Run(s, events, host).trace
    decreases |events|
  {
    if |events| > 0 {
      var first := Step(s, events[0], host);
      RunHidesOnlyOnHandOff(first.state, events[1..], host);
    }
  }

  /** In a backed window, picking a listed item launches it on the host,
      unless only the placeholder is listed, which falls back. */
  lemma ListedItemLaunches(s: State, i: int, cfg: Config, launched: Call<int32>, host: string)
    requires Backed(s)
    requires 0 <= i < |s.items|
    requires s.index != map[]
    ensures s.items[i] in s.index
    ensures LaunchCalls(Launch(s, Some(s.items[i]), cfg, launched, host).trace)
         == [LaunchCallFor(s.index[s.items[i]], cfg)]
  {
  }

  /** Whatever happens, a window started fresh keeps every listed name resolvable. */
  lemma FromInitialStaysBacked(events: seq<Event>, host: string)
    ensures Backed(Run(Initial, events, host).state)
  {
    RunKeepsBacked(Initial, events, host);
  }
}
