/** packages/getter-appmanager/src/version_ignore.rs: the map from app id
    to the version the user chose to ignore. The mutex around the map is
    not modelled: every method runs with the lock held. */
module VersionIgnore {
  import opened Wrappers
  import opened Collections

  /** The entries of `m` whose keys are in `keys`. */
  function Restrict(m: map<string, string>, keys: set<string>): (r: map<string, string>)
    ensures r.Keys == m.Keys * keys
    ensures forall k :: k in r ==> r[k] == m[k]
  {
    map k | k in m && k in keys :: m[k]
  }

  /** `base` after `insert`ing the entries of `current` under `keys`, in
      that order. */
  function InsertAll(base: map<string, string>, current: map<string, string>, keys: seq<string>)
    : map<string, string>
    requires forall k :: k in keys ==> k in current
  {
    if keys == [] then base
    else InsertAll(base, current, keys[..|keys| - 1])[keys[|keys| - 1] := current[keys[|keys| - 1]]]
  }

  /** Whatever the order, the inserted entries override `base`. */
  lemma {:induction false} InsertAllIsUnion(base: map<string, string>, current: map<string, string>, keys: seq<string>)
    requires forall k :: k in keys ==> k in current
    ensures InsertAll(base, current, keys) == base + Restrict(current, set k | k in keys)
  {
    if keys != [] {
      var init := keys[..|keys| - 1];
      var last := keys[|keys| - 1];
      assert forall k :: k in init ==> k in keys;
      InsertAllIsUnion(base, current, init);
      assert (set k | k in keys) == (set k | k in init) + {last} by {
        assert keys == init + [last];
      }
      RestrictOneMore(base, current, (set k | k in init), last);
    }
  }

  /** Restricting to one more key of `current` is one more update. */
  lemma RestrictOneMore(base: map<string, string>, current: map<string, string>, keys: set<string>, k: string)
    requires k in current
    ensures base + Restrict(current, keys + {k}) == (base + Restrict(current, keys))[k := current[k]]
  {
  }

  /** `insert` returns `None`, and the map grows, exactly for a new key. */
  lemma UpdateSize(m: map<string, string>, k: string, v: string)
    ensures |m[k := v]| == if k in m then |m| else |m| + 1
  {
    if k in m {
      assert m[k := v].Keys == m.Keys;
    } else {
      assert m[k := v].Keys == m.Keys + {k};
    }
  }

  /** The union has one entry more than `base` per key of `current` that
      `base` lacks. */
  lemma UnionGrowth(base: map<string, string>, current: map<string, string>)
    ensures |base + current| == |base| + |current.Keys - base.Keys|
  {
    var added := current.Keys - base.Keys;
    assert (base + current).Keys == base.Keys + added;
    assert base.Keys * added == {};
  }

  /** One loop iteration: the next key inserted. */
  lemma InsertStep(base: map<string, string>, current: map<string, string>, keys: seq<string>, i: nat)
    requires forall k :: k in keys ==> k in current
    requires i < |keys|
    ensures forall k :: k in keys[..i] ==> k in current
    ensures forall k :: k in keys[..i + 1] ==> k in current
    ensures var before := InsertAll(base, current, keys[..i]);
            InsertAll(base, current, keys[..i + 1]) == before[keys[i] := current[keys[i]]]
            && |before[keys[i] := current[keys[i]]]| == if keys[i] in before then |before| else |before| + 1
  {
    assert keys[..i + 1][..i] == keys[..i];
    UpdateSize(InsertAll(base, current, keys[..i]), keys[i], current[keys[i]]);
  }

  /** Inserting every key of `current` yields the union. */
  lemma InsertEnumerated(base: map<string, string>, current: map<string, string>, keys: seq<string>)
    requires forall k :: k in keys <==> k in current
    ensures InsertAll(base, current, keys[..|keys|]) == base + current
    ensures |base + current| == |base| + |current.Keys - base.Keys|
  {
    assert keys[..|keys|] == keys;
    InsertAllIsUnion(base, current, keys);
    assert Restrict(current, set k | k in keys) == current;
    UnionGrowth(base, current);
  }

  class VersionIgnoreManager {
    var ignoredVersions: map<string, string>

    constructor()
      ensures ignoredVersions == map[]
    {
      ignoredVersions := map[];
    }

    /** Records the version; true iff one was already recorded. */
    method SetIgnoreVersion(appId: string, version: string) returns (replaced: bool)
      modifies this
      ensures replaced <==> appId in old(ignoredVersions)
      ensures ignoredVersions == old(ignoredVersions)[appId := version]
    {
      replaced := appId in ignoredVersions;
      ignoredVersions := ignoredVersions[appId := version];
    }

    /** Forgets the entry; true iff there was one. */
    method RemoveIgnoreVersion(appId: string) returns (removed: bool)
      modifies this
      ensures removed <==> appId in old(ignoredVersions)
      ensures ignoredVersions == old(ignoredVersions) - {appId}
      ensures GetIgnoreVersion(appId).None?
    {
      removed := appId in ignoredVersions;
      ignoredVersions := ignoredVersions - {appId};
    }

    function GetIgnoreVersion(appId: string): (r: Option<string>)
      reads this
      ensures r.Some? <==> appId in ignoredVersions
      ensures r.Some? ==> r.value == ignoredVersions[appId]
    {
      if appId in ignoredVersions then Some(ignoredVersions[appId]) else None
    }

    /** True iff the recorded version is exactly `version`. */
    predicate IsVersionIgnored(appId: string, version: string)
      reads this
      ensures IsVersionIgnored(appId, version) <==> GetIgnoreVersion(appId) == Some(version)
    {
      appId in ignoredVersions && ignoredVersions[appId] == version
    }

    /** Records every pair and counts the app ids that had no entry; the
        `HashMap` is visited in an order the model leaves open. */
    method IgnoreAllCurrentVersions(currentVersions: map<string, string>) returns (count: nat)
      modifies this
      ensures ignoredVersions == old(ignoredVersions) + currentVersions
      ensures count == |currentVersions.Keys - old(ignoredVersions).Keys|
    {
      var keys := SetElements(currentVersions.Keys);
      count := 0;
      for i := 0 to |keys|
        invariant ignoredVersions == InsertAll(old(ignoredVersions), currentVersions, keys[..i])
        invariant count + |old(ignoredVersions)| == |ignoredVersions|
      {
        InsertStep(old(ignoredVersions), currentVersions, keys, i);
        if keys[i] !in ignoredVersions {
          count := count + 1;
        }
        ignoredVersions := ignoredVersions[keys[i] := currentVersions[keys[i]]];
      }
      InsertEnumerated(old(ignoredVersions), currentVersions, keys);
    }

    /** Every app with a recorded version, with that version. */
    function GetAllIgnored(): (r: map<string, string>)
      reads this
      ensures forall appId :: appId in r <==> GetIgnoreVersion(appId).Some?
      ensures forall appId :: appId in r ==> IsVersionIgnored(appId, r[appId])
      ensures |r| == Count()
    {
      ignoredVersions
    }

    method ClearAll()
      modifies this
      ensures ignoredVersions == map[] && Count() == 0
    {
      ignoredVersions := map[];
    }

    function Count(): (n: nat)
      reads this
      ensures n == |ignoredVersions.Keys|
    {
      |ignoredVersions|
    }
  }
}
