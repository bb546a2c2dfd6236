/** The observable side effects of the apps window, recorded in order. */
module Trace {
  import opened Remote

  datatype Action =
    | QueryCurrentGame                       // ask the host which game is running
    | ListApps                               // ask the host for its catalog
    | Resume                                 // resume the running game session
    | LaunchCall(appId: int32, width: int32, height: int32, refreshRate: int32)
    | Hide                                   // hide the apps window
    | CreateInstance(host: string)           // hand off to the streaming session

  /** The terminal hand-off: hide the window, then start streaming from `host`. */
  function HandOff(host: string): seq<Action>
  {
    [Hide, CreateInstance(host)]
  }

  /** The remote launch calls of `t`, in the order they were issued. */
  function LaunchCalls(t: seq<Action>): (r: seq<Action>)
    ensures |r| <= |t|
    ensures forall a :: a in r <==> a in t && a.LaunchCall?
  {
    if |t| == 0 then []
    else if t[0].LaunchCall? then [t[0]] + LaunchCalls(t[1..])
    else LaunchCalls(t[1..])
  }

  /** Launch calls of a concatenation are those of each part, in order. */
  lemma {:induction false} LaunchCallsAppend(t: seq<Action>, u: seq<Action>)
    ensures LaunchCalls(t + u) == LaunchCalls(t) + LaunchCalls(u)
    decreases |t|
  {
    if |t| == 0 {
      assert t + u == u;
    } else {
      assert (t + u)[1..] == t[1..] + u;
      LaunchCallsAppend(t[1..], u);
    }
  }
}
