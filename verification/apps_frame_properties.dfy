/** Properties of the apps window that relate several calls or quantify over
    all inputs of one. */
module AppsFrameProperties {
  import opened Remote
  import opened Trace
  import opened SelectionIndex
  import opened AppsFrame

  /** With a game running, discovery does not depend on the catalog the host
      would have reported: the list call is never made. */
  lemma FetchIgnoresCatalogWhenActive(game: int32, a: Call<seq<App>>, b: Call<seq<App>>)
    requires game != 0
    ensures Fetch(Ok(game), a) == Fetch(Ok(game), b)
    ensures Fetch(Ok(game), a).catalog == []
  {
  }

  /** After a delivered catalog, every fetched name resolves to the last
      fetched entry carrying that name. */
  lemma CompleteLastWriteWins(s: State, fetched: seq<App>, i: int)
    requires LastOfName(fetched, i)
    ensures fetched[i].name in Complete(s, Delivered(fetched)).index
    ensures Complete(s, Delivered(fetched)).index[fetched[i].name] == fetched[i]
  {
    PutAllLastWriteWins(s.index, fetched, i);
  }

  /** The index is only added to: a key the fetch did not mention keeps its
      entry, even though the selector no longer lists it. */
  lemma CompleteKeepsStaleEntries(s: State, fetched: seq<App>, k: string)
    requires k in s.index
    requires forall a :: a in fetched ==> a.name != k
    ensures k in Complete(s, Delivered(fetched)).index
    ensures Complete(s, Delivered(fetched)).index[k] == s.index[k]
    ensures k !in Complete(s, Delivered(fetched)).items
  {
    PutAllKeepsUntouched(s.index, fetched, k);
  }

  /** Stale entries cannot be reached through the selector: after a delivered
      catalog, every listed name resolves exactly as it would against an index
      built from that catalog alone. */
  lemma CompleteListedAsIfRebuilt(s: State, fetched: seq<App>, i: int)
    requires 0 <= i < |fetched|
    ensures Complete(s, Delivered(fetched)).items[i] == fetched[i].name
    ensures Resolve(Complete(s, Delivered(fetched)), Some(fetched[i].name))
         == Resolve(Complete(Initial, Delivered(fetched)), Some(fetched[i].name))
  {
    PutAllIndependentOfBase(s.index, map[], fetched, i);
  }

  /** From a fresh window, a completed fetch leaves exactly the fetched names
      as keys of the index. */
  lemma CompleteFromInitialIndexesExactlyFetched(fetched: seq<App>)
    ensures Complete(Initial, Delivered(fetched)).index.Keys == NameSet(fetched)
    ensures Placeholder !in Complete(Initial, Delivered(fetched)).items || exists a :: a in fetched && a.name == Placeholder
  {
    var r := Complete(Initial, Delivered(fetched));
    if Placeholder in r.items {
      var i :| 0 <= i < |r.items| && r.items[i] == Placeholder;
      assert fetched[i] in fetched;
    }
  }

  /** Before any fetch has completed, Launch always takes the default hand-off. */
  lemma LaunchBeforeFetchFallsBack(selected: Option<string>, cfg: Config, launched: Call<int32>, host: string)
    ensures Launch(Initial, selected, cfg, launched, host) == LaunchSteam(Initial, host)
    ensures LaunchCalls(Launch(Initial, selected, cfg, launched, host).trace) == []
  {
  }

  /** A successful remote launch and the default hand-off end in the same
      state and perform the same hand-off; the launch only adds its call first. */
  lemma SuccessConvergesWithFallback(s: State, name: string, cfg: Config, handle: int32, host: string)
    requires name in s.index
    requires handle != 0
    ensures Launch(s, Some(name), cfg, Ok(handle), host).state == Launch(s, None, cfg, Ok(handle), host).state
    ensures Launch(s, Some(name), cfg, Ok(handle), host).trace
         == [LaunchCallFor(s.index[name], cfg)] + Launch(s, None, cfg, Ok(handle), host).trace
  {
  }

  /** A zero session handle or a failed launch call leaves the window as it was. */
  lemma FailedLaunchIsNoOp(s: State, name: string, cfg: Config, launched: Call<int32>, host: string)
    requires name in s.index
    requires !Started(launched)
    ensures Launch(s, Some(name), cfg, launched, host).state == s
    ensures CreateInstance(host) !in Launch(s, Some(name), cfg, launched, host).trace
    ensures Hide !in Launch(s, Some(name), cfg, launched, host).trace
  {
  }
}
