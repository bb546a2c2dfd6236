/** Concrete instances of the apps window's behaviour, one lemma per situation. */
module Scenarios {
  import opened Remote
  import opened Trace
  import opened AppsFrame

  const Chess := App(7, "Chess")
  const Cfg := Config(1280, 720, 60)

  /** No game running and a one-entry catalog: the catalog fills the window. */
  lemma CatalogArrives()
    ensures Fetch(Ok(0), Ok([Chess])).catalog == [Chess]
    ensures FetchCycle(Initial, Ok(0), Ok([Chess]), None).state.items == ["Chess"]
    ensures FetchCycle(Initial, Ok(0), Ok([Chess]), None).state.index == map["Chess" := Chess]
  {
  }

  /** A game already running: it is resumed and the selector ends up empty. */
  lemma GameAlreadyRunning()
    ensures Fetch(Ok(42), Ok([Chess])) == Fetched([], [QueryCurrentGame, Resume])
    ensures FetchCycle(Initial, Ok(42), Ok([Chess]), None).state.items == []
  {
  }

  /** The catalog call fails: the catalog is empty, and no error escapes. */
  lemma CatalogCallFails()
    ensures Fetch(Ok(0), Err(Transport)).catalog == []
  {
  }

  /** Picking the placeholder when the index knows only Chess falls back. */
  lemma PlaceholderFallsBack()
    ensures Launch(State(["Chess"], map["Chess" := Chess], true), Some(Placeholder), Cfg, Ok(1001), "host")
         == Transition(State(["Chess"], map["Chess" := Chess], false), [Hide, CreateInstance("host")])
  {
  }

  /** Launching Chess with a non-zero session handle hands off to streaming. */
  lemma ChessLaunches()
    ensures Launch(State(["Chess"], map["Chess" := Chess], true), Some("Chess"), Cfg, Ok(1001), "host").trace
         == [LaunchCall(7, 1280, 720, 60), Hide, CreateInstance("host")]
  {
  }
}
