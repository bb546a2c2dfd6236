/** The window's `apps` map from display name to catalog entry, and the
    selector's item list, as the completion of a fetch builds them. */
module SelectionIndex {
  import opened Remote

  /** The display names of `apps`, in order: what the selector lists. */
  function Names(apps: seq<App>): (r: seq<string>)
    ensures |r| == |apps|
    ensures forall i :: 0 <= i < |apps| ==> r[i] == apps[i].name
  {
    seq(|apps|, i requires 0 <= i < |apps| => apps[i].name)
  }

  /** `apps[i]` is the last entry of `apps` that carries its name. */
  ghost predicate LastOfName(apps: seq<App>, i: int)
  {
    && 0 <= i < |apps|
    && forall j :: i < j < |apps| ==> apps[j].name != apps[i].name
  }

  /** The set of names carried by `apps`. */
  function NameSet(apps: seq<App>): set<string>
  {
    set a | a in apps :: a.name
  }

  /** Puts every entry of `apps` into `m` under its name, first to last.
      The map is only ever added to: no key of `m` is dropped. */
  function PutAll(m: map<string, App>, apps: seq<App>): (r: map<string, App>)
    ensures r.Keys == m.Keys + NameSet(apps)
    decreases |apps|
  {
    if |apps| == 0 then m
    else
      var last := apps[|apps| - 1];
      var front := apps[..|apps| - 1];
      assert apps == front + [last];
      assert NameSet(apps) == NameSet(front) + {last.name};
      PutAll(m, front)[last.name := last]
  }

  /** Last write wins: a name maps to the last entry put under it. */
  lemma {:induction false} PutAllLastWriteWins(m: map<string, App>, apps: seq<App>, i: int)
    requires LastOfName(apps, i)
    ensures apps[i].name in PutAll(m, apps)
    ensures PutAll(m, apps)[apps[i].name] == apps[i]
    decreases |apps|
  {
    var n := |apps| - 1;
    var front := apps[..n];
    if i < n {
      assert LastOfName(front, i) by {
        forall j | i < j < |front| ensures front[j].name != front[i].name {
          assert front[j] == apps[j];
        }
      }
      PutAllLastWriteWins(m, front, i);
      assert apps[n].name != apps[i].name;
    }
  }

  /** A key no entry of `apps` is put under keeps the value it had. */
  lemma {:induction false} PutAllKeepsUntouched(m: map<string, App>, apps: seq<App>, k: string)
    requires k in m
    requires forall a :: a in apps ==> a.name != k
    ensures k in PutAll(m, apps)
    ensures PutAll(m, apps)[k] == m[k]
    decreases |apps|
  {
    if |apps| > 0 {
      var front := apps[..|apps| - 1];
      assert forall a :: a in front ==> a in apps;
      PutAllKeepsUntouched(m, front, k);
    }
  }

  /** Every name in `apps` has a last entry carrying it. */
  lemma LastOfNameExists(apps: seq<App>, i: int) returns (j: int)
    requires 0 <= i < |apps|
    ensures LastOfName(apps, j)
    ensures apps[j].name == apps[i].name
    ensures i <= j
    decreases |apps| - i
  {
    if k :| i < k < |apps| && apps[k].name == apps[i].name {
      j := LastOfNameExists(apps, k);
    } else {
      j := i;
    }
  }

  /** What a name in `apps` maps to does not depend on the map the entries
      are put into: it is the last entry of `apps` with that name. */
  lemma PutAllIndependentOfBase(m: map<string, App>, m': map<string, App>, apps: seq<App>, i: int)
    requires 0 <= i < |apps|
    ensures apps[i].name in PutAll(m, apps) && apps[i].name in PutAll(m', apps)
    ensures PutAll(m, apps)[apps[i].name] == PutAll(m', apps)[apps[i].name]
  {
    var j := LastOfNameExists(apps, i);
    PutAllLastWriteWins(m, apps, j);
    PutAllLastWriteWins(m', apps, j);
  }
}
