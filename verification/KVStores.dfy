/** The store of a server process, updated in place. */
module KVStores {
  import opened Types
  import opened Stores

  class KVStore {
    var clean: map<Key, Record>
    var dirty: map<Key, map<nat, Record>>

    /** The two maps as one value. */
    function View(): Store
      reads this
    {
      Store(clean, dirty)
    }

    constructor ()
      ensures View() == EMPTY
    {
      clean, dirty := map[], map[];
    }

    /** The highest version of a key, clean or dirty: a scan over the dirty records. */
    method GetLatestVersion(key: Key) returns (latest: nat)
      ensures latest == LatestVersion(View(), key)
    {
      latest := 0;
      if key in clean {
        latest := clean[key].version;
      }
      if key in dirty {
        var todo := dirty[key].Keys;
        while todo != {}
          invariant todo <= dirty[key].Keys
          invariant latest >= CleanVersion(View(), key)
          invariant latest == CleanVersion(View(), key) || latest in dirty[key].Keys
          invariant forall v :: v in dirty[key].Keys && v !in todo ==> v <= latest
          decreases todo
        {
          var v :| v in todo;
          todo := todo - {v};
          if v > latest {
            latest := v;
          }
        }
      }
    }

    /** A write without a version gets the next version; one with a version is kept unless it is covered. */
    method Put(key: Key, value: Value, version: Option<nat>) returns (result: nat)
      modifies this
      ensures version.None? ==>
        View() == PutNext(old(View()), key, value) && result == LatestVersion(old(View()), key) + 1
      ensures version.Some? ==>
        && View() == PutAt(old(View()), key, value, version.value)
        && result == (if version.value <= CleanVersion(old(View()), key) then CleanVersion(old(View()), key)
                      else version.value)
    {
      if version.None? {
        var latest := GetLatestVersion(key);
        var records := if key in dirty then dirty[key] else map[];
        dirty := dirty[key := records[latest + 1 := Record(latest + 1, value)]];
        return latest + 1;
      }
      var committed := 0;
      if key in clean {
        committed := clean[key].version;
      }
      if version.value <= committed {
        return committed;
      }
      var records := if key in dirty then dirty[key] else map[];
      dirty := dirty[key := records[version.value := Record(version.value, value)]];
      return version.value;
    }

    method Get(key: Key) returns (value: Option<Value>)
      ensures value == if key in View().clean then Some(View().clean[key].value) else None
    {
      value := if key in clean then Some(clean[key].value) else None;
    }

    /** Erases the dirty records of a key up to a version, one after the other. */
    method EraseUpTo(key: Key, version: nat)
      requires key in dirty
      modifies this`dirty
      ensures dirty == old(dirty)[key := Above(old(dirty)[key], version)]
    {
      var todo := dirty[key].Keys;
      ghost var before := dirty[key];
      while todo != {}
        invariant key in dirty && todo <= before.Keys
        invariant dirty == old(dirty)[key := dirty[key]]
        invariant dirty[key] == map v | v in before && (v in todo || v > version) :: before[v]
        decreases todo
      {
        var v :| v in todo;
        todo := todo - {v};
        if v <= version {
          dirty := dirty[key := dirty[key] - {v}];
        }
      }
      assert dirty[key] == Above(before, version);
    }

    /** Promotes a dirty record to clean and drops everything up to its version. */
    method MarkCleanVersion(key: Key, version: nat)
      modifies this
      ensures View() == MarkClean(old(View()), key, version)
    {
      if key !in dirty {
        return;
      }
      var record := if version in dirty[key] then Some(dirty[key][version]) else None;
      EraseUpTo(key, version);
      if record.None? {
        return;
      }
      if key !in clean || record.value.version > clean[key].version {
        clean := clean[key := record.value];
      }
    }

    /** The clean records, as the two maps a state dump carries. */
    method SnapshotCommitted() returns (values: map<Key, Value>, versions: map<Key, nat>)
      ensures values == DumpValues(View()) && versions == DumpVersions(View())
    {
      values, versions := map[], map[];
      var todo := clean.Keys;
      while todo != {}
        invariant todo <= clean.Keys
        invariant values == map k | k in clean && k !in todo :: clean[k].value
        invariant versions == map k | k in clean && k !in todo :: clean[k].version
        decreases todo
      {
        var k :| k in todo;
        todo := todo - {k};
        values := values[k := clean[k].value];
        versions := versions[k := clean[k].version];
      }
    }

    /** Takes over one entry of a snapshot. */
    method ApplyEntry(key: Key, value: Value, version: nat)
      modifies this
      ensures At(View(), key) == Merge(At(old(View()), key), Some(Record(version, value)))
      ensures forall k :: k != key ==> At(View(), k) == At(old(View()), k)
    {
      if key !in clean || version > clean[key].version {
        clean := clean[key := Record(version, value)];
      }
      if key in dirty {
        EraseUpTo(key, version);
        if dirty[key] == map[] {
          dirty := dirty - {key};
        }
      }
    }

    method ApplyCommittedSnapshot(values: map<Key, Value>, versions: map<Key, nat>)
      modifies this
      ensures View() == ApplySnapshot(old(View()), values, versions)
    {
      var todo := values.Keys;
      while todo != {}
        invariant todo <= values.Keys
        invariant forall k :: k in todo ==> At(View(), k) == At(old(View()), k)
        invariant forall k :: k !in todo ==>
          At(View(), k) == Merge(At(old(View()), k), Offer(values, versions, k))
        decreases todo
      {
        var key :| key in todo;
        todo := todo - {key};
        var version := 0;
        if key in versions {
          version := versions[key];
        }
        ApplyEntry(key, values[key], version);
      }
      forall k ensures At(View(), k) == At(ApplySnapshot(old(View()), values, versions), k) {
        SnapshotAt(old(View()), values, versions, k);
      }
      SameCells(View(), ApplySnapshot(old(View()), values, versions));
    }
  }
}
