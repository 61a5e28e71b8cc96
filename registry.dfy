/** The fiber registry: the map from fiber id to fiber snapshot that
    `$getFibers` writes each fetched fiber into, one `Map.set` at a time
    (packages/inspector/src/sandbox/index.ts, Inspector.fibers). */
module Registry {
  import opened Wrappers
  import opened Fibers

  /** The ids occurring in a fetched list. */
  function Ids(fs: seq<Fiber>): set<string>
  {
    set i | 0 <= i < |fs| :: fs[i].id
  }

  /** The registry after `fs.forEach(f => registry.set(f.id, f))`: every
      fiber written over `m` in list order. */
  function Merge(m: map<string, Fiber>, fs: seq<Fiber>): (r: map<string, Fiber>)
    ensures r.Keys == m.Keys + Ids(fs)
    decreases |fs|
  {
    if fs == [] then m
    else
      var n := |fs| - 1;
      assert Ids(fs) == Ids(fs[..n]) + {fs[n].id} by {
        assert forall i | 0 <= i < n :: fs[..n][i] == fs[i];
      }
      Merge(m, fs[..n])[fs[n].id := fs[n]]
  }

  /** Position `i` holds the last fiber of `fs` with its id. */
  ghost predicate IsLastWithId(fs: seq<Fiber>, i: int)
  {
    0 <= i < |fs| && forall j | i < j < |fs| :: fs[j].id != fs[i].id
  }

  /** The position of the last fiber of `fs` carrying `id`. */
  function LastIndex(fs: seq<Fiber>, id: string): (i: int)
    requires id in Ids(fs)
    ensures IsLastWithId(fs, i) && fs[i].id == id
    decreases |fs|
  {
    var n := |fs| - 1;
    if fs[n].id == id then n
    else
      assert id in Ids(fs[..n]) by {
        var k :| 0 <= k < |fs| && fs[k].id == id;
        assert fs[..n][k] == fs[k];
      }
      LastIndex(fs[..n], id)
  }

  /** Among duplicate ids, the last fiber of the list is the one registered. */
  lemma {:induction false} MergeLastWins(m: map<string, Fiber>, fs: seq<Fiber>, i: int)
    requires IsLastWithId(fs, i)
    ensures fs[i].id in Merge(m, fs) && Merge(m, fs)[fs[i].id] == fs[i]
    decreases |fs|
  {
    var n := |fs| - 1;
    var init := fs[..n];
    assert Merge(m, fs) == Merge(m, init)[fs[n].id := fs[n]];
    if i < n {
      assert fs[n].id != fs[i].id;
      assert IsLastWithId(init, i) by {
        forall j | i < j < n
          ensures init[j].id != init[i].id
        {
          assert init[j] == fs[j];
        }
      }
      MergeLastWins(m, init, i);
    }
  }

  /** Entries whose id the fetch does not mention keep their previous fiber. */
  lemma {:induction false} MergeKeepsOthers(m: map<string, Fiber>, fs: seq<Fiber>, k: string)
    requires k in m && k !in Ids(fs)
    ensures k in Merge(m, fs) && Merge(m, fs)[k] == m[k]
    decreases |fs|
  {
    if fs != [] {
      var n := |fs| - 1;
      assert k !in Ids(fs[..n]) by {
        assert forall j | 0 <= j < n :: fs[..n][j] == fs[j];
      }
      MergeKeepsOthers(m, fs[..n], k);
      assert fs[n].id in Ids(fs);
    }
  }

  /** The registry after a fetch, described all at once: the previous entries
      overridden by the last fiber of the list for each id it mentions. */
  ghost function Registered(m: map<string, Fiber>, fs: seq<Fiber>): map<string, Fiber>
  {
    map k | k in m.Keys + Ids(fs) :: if k in Ids(fs) then fs[LastIndex(fs, k)] else m[k]
  }

  /** The one-at-a-time merge agrees with the all-at-once description. */
  lemma {:induction false} MergeMatchesReference(m: map<string, Fiber>, fs: seq<Fiber>)
    ensures Merge(m, fs) == Registered(m, fs)
  {
    var r, s := Merge(m, fs), Registered(m, fs);
    forall k | k in r.Keys
      ensures r[k] == s[k]
    {
      if k in Ids(fs) {
        MergeLastWins(m, fs, LastIndex(fs, k));
      } else {
        MergeKeepsOthers(m, fs, k);
      }
    }
  }

  /** Fetching the same list twice leaves the registry as one fetch did. */
  lemma {:induction false} MergeIdempotent(m: map<string, Fiber>, fs: seq<Fiber>)
    ensures Merge(Merge(m, fs), fs) == Merge(m, fs)
  {
    var once := Merge(m, fs);
    MergeMatchesReference(m, fs);
    MergeMatchesReference(once, fs);
    forall k | k in once.Keys && k !in Ids(fs)
      ensures once[k] == m[k]
    {
      MergeKeepsOthers(m, fs, k);
    }
  }

  /** Every registry entry is stored under its own fiber's id. */
  ghost predicate KeyedById(m: map<string, Fiber>)
  {
    forall k | k in m :: m[k].id == k
  }

  /** Writing a list into a registry keyed by id keeps it keyed by id. */
  lemma {:induction false} MergeKeyedById(m: map<string, Fiber>, fs: seq<Fiber>)
    requires KeyedById(m)
    ensures KeyedById(Merge(m, fs))
    decreases |fs|
  {
    if fs != [] {
      MergeKeyedById(m, fs[..|fs| - 1]);
    }
  }
}
