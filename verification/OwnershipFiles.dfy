/** Reading and committing the manifest, file by file, proved against the storage model. */
module OwnershipFiles {
  import opened Wrappers
  import opened OwnershipStorage

  /** `expected` still awaits the files of `entries`: what was looked at so far matches the manifest. */
  ghost predicate Scanning(
    m: Manifest, files: map<string, RecordFile>, entries: set<string>, expected: map<string, Record>) {
    && entries <= files.Keys
    && (forall id :: id in files && id !in entries ==> exists r :: r in m.records && r.id == id)
    && (forall r :: r in m.records && r.id !in expected ==>
          r.id in files && r.id !in entries && files[r.id] == RecordFile(m.version, r))
    && (forall id :: id in expected ==> expected[id] in m.records && expected[id].id == id)
    && (forall id :: id in expected && id in files ==> id in entries)
  }

  /** With distinct IDs, the expected record under an ID is the only one. */
  lemma OnlyRecord(m: Manifest, a: Record, b: Record)
    requires Sound(m) && a in m.records && b in m.records && a.id == b.id
    ensures a == b
  {
    SoundIdsDistinct(m);
  }

  lemma NextEntry(
    m: Manifest, files: map<string, RecordFile>, entries: set<string>, expected: map<string, Record>, name: string)
    requires Sound(m) && Scanning(m, files, entries, expected) && name in entries && name in files
    ensures !(name in expected && files[name] == RecordFile(m.version, expected[name])) ==> !Matches(m, files)
    ensures name in expected && files[name] == RecordFile(m.version, expected[name]) ==>
              Scanning(m, files, entries - {name}, expected - {name})
  {
    forall r | r in m.records && r.id == name && name in expected
      ensures r == expected[name]
    {
      OnlyRecord(m, r, expected[name]);
    }
    if name !in expected {
      assert forall r :: r in m.records && r.id == name ==> r.id in expected;
    }
  }

  lemma ScanStarts(m: Manifest, files: map<string, RecordFile>, expected: map<string, Record>)
    requires forall r :: r in m.records ==> r.id in expected
    requires forall id :: id in expected ==> expected[id] in m.records && expected[id].id == id
    ensures Scanning(m, files, files.Keys, expected)
  {
  }

  /** Once every file was looked at, the directory matches exactly when no record is left over. */
  lemma ScanEnds(m: Manifest, files: map<string, RecordFile>, expected: map<string, Record>)
    requires Scanning(m, files, {}, expected)
    ensures expected == map[] <==> Matches(m, files)
  {
    if expected != map[] {
      assert expected.Keys != {};
      var id :| id in expected;
      assert expected[id] in m.records && id !in files;
    }
  }

  ghost function Without(d: Disk, gone: set<string>): Disk {
    d.(files := d.files - gone)
  }

  lemma NothingPending(s: Storage)
    requires s.pending == []
    ensures Visible(s) == Without(s.synced, {})
  {
    assert s.synced.files - {} == s.synced.files;
  }

  lemma DropOne(s: Storage, name: string)
    ensures Visible(Issue(s, [DropRecord(name)])) == Without(Visible(s), {name})
  {
    SurvivorsAppend(s.synced, s.pending, [DropRecord(name)]);
    assert [DropRecord(name)][..0] == [];
    assert Survivors(Visible(s), [DropRecord(name)], All()) == Apply(Visible(s), DropRecord(name));
  }

  lemma WithoutMore(d: Disk, gone: set<string>, name: string)
    ensures Without(Without(d, gone), {name}) == Without(d, gone + {name})
  {
    assert (d.files - gone) - {name} == d.files - (gone + {name});
  }

  class OwnershipRoot {
    var storage: Storage

    constructor (s: Storage)
      ensures storage == s
    {
      storage := s;
    }

    method ReadManifest() returns (r: Option<Manifest>)
      ensures r == Read(Visible(storage))
    {
      var d := Visible(storage);
      if d.manifest.None? {
        return None;
      }
      var m := d.manifest.value;
      if m.schema != SCHEMA || m.version == 0 || m.runtime == "" {
        return None;
      }
      for index := 0 to |m.records|
        invariant forall i :: 0 <= i < index ==> ValidRecord(m.records[i])
        invariant forall i :: 0 < i < index ==> Less(m.records[i - 1].id, m.records[i].id)
      {
        if !ValidRecord(m.records[index]) || (index > 0 && !Less(m.records[index - 1].id, m.records[index].id)) {
          return None;
        }
      }
      if m.state == Clean && m.records != [] {
        return None;
      }
      var matched := ValidateRecords(m);
      return if matched then Some(m) else None;
    }

    method ValidateRecords(m: Manifest) returns (ok: bool)
      requires Sound(m)
      ensures ok <==> Matches(m, Visible(storage).files)
    {
      hide Visible, Sound, Matches, Scanning;
      var files := Visible(storage).files;
      var expected: map<string, Record> := map[];
      for i := 0 to |m.records|
        invariant forall j :: 0 <= j < i ==> m.records[j].id in expected
        invariant forall id :: id in expected ==> expected[id] in m.records && expected[id].id == id
      {
        expected := expected[m.records[i].id := m.records[i]];
      }
      ScanStarts(m, files, expected);
      var entries := files.Keys;
      while entries != {}
        invariant Scanning(m, files, entries, expected) && entries <= files.Keys
        decreases |entries|
      {
        var name :| name in entries;
        NextEntry(m, files, entries, expected, name);
        if name !in expected || files[name] != RecordFile(m.version, expected[name]) {
          return false;
        }
        expected := expected - {name};
        entries := entries - {name};
      }
      ScanEnds(m, files, expected);
      return expected == map[];
    }

    /** Writes the record files, then the manifest, syncs, and removes the record files it does not list. */
    method WriteManifest(m: Manifest, fault: Fault) returns (ok: bool)
      modifies this
      ensures storage == Committed(old(storage), m, fault)
      ensures ok == !CommitFails(old(storage), m, fault)
    {
      ghost var before := storage;
      var writes := Writes(m);
      for k := 0 to |writes|
        invariant storage == Issue(before, writes[..k])
        invariant fault.WriteFails? ==> k <= fault.done
      {
        if fault == WriteFails(k) {
          return false;
        }
        assert writes[..k + 1] == writes[..k] + [writes[k]];
        assert before.pending + writes[..k + 1] == (before.pending + writes[..k]) + [writes[k]];
        storage := Issue(storage, [writes[k]]);
      }
      assert writes[..|writes|] == writes;
      if fault.SyncFails? {
        return false;
      }
      storage := Sync(storage);
      ok := RemoveStale(m, fault);
    }

    method RemoveStale(m: Manifest, fault: Fault) returns (ok: bool)
      requires storage.pending == []
      modifies this
      ensures var stale := old(storage).synced.files.Keys - Ids(m.records);
              && ok == !(fault.RemoveFails? && stale != {})
              && storage == if !ok then Issue(old(storage), Drops(fault.removed))
                            else Storage(old(storage).synced.(files := old(storage).synced.files - stale), [])
    {
      var stale := storage.synced.files.Keys - Ids(m.records);
      if stale == {} {
        return true;
      }
      if fault.RemoveFails? {
        storage := Issue(storage, Drops(fault.removed));
        return false;
      }
      hide Survivors;
      NothingPending(storage);
      ghost var before, gone := storage.synced, {};
      var left := stale;
      while left != {}
        invariant left + gone == stale && storage.synced == before
        invariant Visible(storage) == Without(before, gone)
        decreases |left|
      {
        var name :| name in left;
        DropOne(storage, name);
        WithoutMore(before, gone, name);
        storage := Issue(storage, [DropRecord(name)]);
        left, gone := left - {name}, gone + {name};
      }
      storage := Sync(storage);
      ok := true;
    }
  }
}
