/**
  The ownership root directory: `manifest.json` and one file per tracked process, written by rename
  and made durable by syncing the directory. Whatever was not synced may or may not survive a crash.
*/
module OwnershipStorage {
  import opened Wrappers

  datatype State = Clean | Prepared | Started | Quarantine

  const SCHEMA := 1

  /** `digested`: the stored digest is that of the ID. */
  datatype Record = Record(id: string, pid: int, startTime: nat, digested: bool)

  datatype Manifest = Manifest(
    schema: int, version: nat, runtime: string, state: State, attempt: int, records: seq<Record>)

  datatype RecordFile = RecordFile(version: nat, record: Record)

  /** `files` are the record files by record ID. */
  datatype Disk = Disk(manifest: Option<Manifest>, files: map<string, RecordFile>)

  datatype Op = PutRecord(file: RecordFile) | PutManifest(manifest: Manifest) | DropRecord(id: string)

  /** The directory as last synced, and the renames and removals since. */
  datatype Storage = Storage(synced: Disk, pending: seq<Op>)

  // ---- Operations on the directory ----

  function Apply(d: Disk, op: Op): Disk {
    match op
    case PutRecord(file) => d.(files := d.files[file.record.id := file])
    case PutManifest(manifest) => d.(manifest := Some(manifest))
    case DropRecord(id) => d.(files := d.files - {id})
  }

  /** The operations that `keep` selects, in order. */
  function Survivors(d: Disk, ops: seq<Op>, keep: nat -> bool): Disk {
    if ops == [] then d
    else
      var last := |ops| - 1;
      var before := Survivors(d, ops[..last], keep);
      if keep(last) then Apply(before, ops[last]) else before
  }

  function All(): nat -> bool {
    _ => true
  }

  /** What the running system sees. */
  function Visible(s: Storage): Disk {
    Survivors(s.synced, s.pending, All())
  }

  function Sync(s: Storage): Storage {
    Storage(Visible(s), [])
  }

  function Issue(s: Storage, ops: seq<Op>): Storage {
    s.(pending := s.pending + ops)
  }

  /** A crash keeps an arbitrary selection of what was not synced. */
  function Crash(s: Storage, keep: nat -> bool): Storage {
    Storage(Survivors(s.synced, s.pending, keep), [])
  }

  // ---- Reading ----

  /** Lexicographic order of IDs. */
  predicate Less(a: string, b: string) {
    b != [] && (a == [] || a[0] < b[0] || (a[0] == b[0] && Less(a[1..], b[1..])))
  }

  predicate ValidRecord(r: Record) {
    r.id != "" && r.pid > 0 && r.startTime != 0 && r.digested
  }

  ghost predicate Sound(m: Manifest) {
    && m.schema == SCHEMA && m.version != 0 && m.runtime != ""
    && (forall i :: 0 <= i < |m.records| ==> ValidRecord(m.records[i]))
    && (forall i :: 0 < i < |m.records| ==> Less(m.records[i - 1].id, m.records[i].id))
    && (m.state == Clean ==> m.records == [])
  }

  /** The record files are exactly those of the manifest, at its version. */
  ghost predicate Matches(m: Manifest, files: map<string, RecordFile>) {
    && (forall r :: r in m.records ==> r.id in files && files[r.id] == RecordFile(m.version, r))
    && (forall id :: id in files ==> exists r :: r in m.records && r.id == id)
  }

  /** A read succeeds only on a sound manifest that its record files match. */
  ghost function Read(d: Disk): Option<Manifest> {
    if d.manifest.Some? && Sound(d.manifest.value) && Matches(d.manifest.value, d.files) then d.manifest else None
  }

  lemma {:induction false} LessIsTransitive(a: string, b: string, c: string)
    requires Less(a, b) && Less(b, c)
    ensures Less(a, c)
    decreases |a|
  {
    if a != [] && a[0] == b[0] && b[0] == c[0] {
      LessIsTransitive(a[1..], b[1..], c[1..]);
    }
  }

  lemma {:induction false} LessIsStrict(a: string, b: string)
    requires Less(a, b)
    ensures a != b
    decreases |a|
  {
    if a != [] && a[0] == b[0] {
      LessIsStrict(a[1..], b[1..]);
    }
  }

  /** Sorted IDs are distinct. */
  lemma {:induction false} DistinctIds(records: seq<Record>, i: nat, j: nat)
    requires forall k :: 0 < k < |records| ==> Less(records[k - 1].id, records[k].id)
    requires i < j < |records|
    ensures Less(records[i].id, records[j].id) && records[i].id != records[j].id
    decreases j
  {
    if i < j - 1 {
      DistinctIds(records, i, j - 1);
      LessIsTransitive(records[i].id, records[j - 1].id, records[j].id);
    }
    LessIsStrict(records[i].id, records[j].id);
  }

  /** Whatever is read back tracks proper processes under distinct IDs, each with its own file; none when clean. */
  lemma ReadTracks(d: Disk)
    requires Read(d).Some?
    ensures var m := Read(d).value;
            && m.schema == 1 && m.version > 0 && m.runtime != "" && (m.state == Clean ==> d.files == map[])
            && (forall i :: 0 <= i < |m.records| ==>
                  var r := m.records[i];
                  && r.id != "" && r.pid > 0 && r.startTime > 0 && r.digested
                  && r.id in d.files && d.files[r.id] == RecordFile(m.version, r))
            && (forall i, j :: 0 <= i < j < |m.records| ==> m.records[i].id != m.records[j].id)
  {
    var m := Read(d).value;
    SoundIdsDistinct(m);
    assert forall id :: id in d.files ==> exists r :: r in m.records && r.id == id;
  }

  // ---- Committing a manifest ----

  /** Where a commit fails, if it does; `removed` are the stale files removed before the failure. */
  datatype Fault = NoFault | WriteFails(done: nat) | SyncFails | RemoveFails(removed: seq<string>)

  function Puts(version: nat, records: seq<Record>): seq<Op> {
    seq(|records|, i requires 0 <= i < |records| => PutRecord(RecordFile(version, records[i])))
  }

  function Writes(m: Manifest): seq<Op> {
    Puts(m.version, m.records) + [PutManifest(m)]
  }

  function Ids(records: seq<Record>): set<string> {
    set r | r in records :: r.id
  }

  function Drops(ids: seq<string>): seq<Op> {
    seq(|ids|, i requires 0 <= i < |ids| => DropRecord(ids[i]))
  }

  /** The directory once the new files are in place and synced. */
  function Renamed(s: Storage, m: Manifest): Storage {
    Sync(Issue(s, Writes(m)))
  }

  function Stale(s: Storage, m: Manifest): set<string> {
    Renamed(s, m).synced.files.Keys - Ids(m.records)
  }

  predicate CommitFails(s: Storage, m: Manifest, fault: Fault) {
    match fault
    case NoFault => false
    case WriteFails(done) => done < |Writes(m)|
    case SyncFails => true
    case RemoveFails(_) => Stale(s, m) != {}
  }

  function Committed(s: Storage, m: Manifest, fault: Fault): Storage {
    if fault.WriteFails? && fault.done < |Writes(m)| then Issue(s, Writes(m)[..fault.done])
    else if fault.SyncFails? then Issue(s, Writes(m))
    else if fault.RemoveFails? && Stale(s, m) != {} then Issue(Renamed(s, m), Drops(fault.removed))
    else
      var d := Renamed(s, m).synced;
      Storage(d.(files := d.files - Stale(s, m)), [])
  }

  // ---- What can be read after a crash ----

  /** Every manifest that the directory may turn out to hold satisfies `p`. */
  ghost predicate Every(s: Storage, p: Manifest -> bool) {
    && (s.synced.manifest.Some? ==> p(s.synced.manifest.value))
    && (forall op :: op in s.pending && op.PutManifest? ==> p(op.manifest))
  }

  lemma {:induction false} SurvivorsHold(d: Disk, ops: seq<Op>, keep: nat -> bool, p: Manifest -> bool)
    requires Every(Storage(d, ops), p)
    ensures Survivors(d, ops, keep).manifest.Some? ==> p(Survivors(d, ops, keep).manifest.value)
    ensures d.manifest.Some? ==> Survivors(d, ops, keep).manifest.Some?
    decreases |ops|
  {
    if ops != [] {
      assert ops[|ops| - 1] in ops;
      assert forall op :: op in ops[..|ops| - 1] ==> op in ops;
      SurvivorsHold(d, ops[..|ops| - 1], keep, p);
    }
  }

  lemma CrashHolds(s: Storage, keep: nat -> bool, p: Manifest -> bool)
    requires Every(s, p)
    ensures Every(Crash(s, keep), p)
    ensures s.synced.manifest.Some? ==> Crash(s, keep).synced.manifest.Some?
  {
    SurvivorsHold(s.synced, s.pending, keep, p);
  }

  lemma VisibleHolds(s: Storage, p: Manifest -> bool)
    requires Every(s, p)
    ensures Visible(s).manifest.Some? ==> p(Visible(s).manifest.value)
    ensures s.synced.manifest.Some? ==> Visible(s).manifest.Some?
  {
    SurvivorsHold(s.synced, s.pending, All(), p);
  }

  lemma WritesHold(m: Manifest, p: Manifest -> bool, k: nat)
    requires p(m) && k <= |Writes(m)|
    ensures forall op :: op in Writes(m)[..k] && op.PutManifest? ==> p(op.manifest)
  {
    forall op | op in Writes(m)[..k] && op.PutManifest?
      ensures op.manifest == m
    {
      var i :| 0 <= i < k && Writes(m)[i] == op;
    }
  }

  lemma IssueHolds(s: Storage, ops: seq<Op>, p: Manifest -> bool)
    requires Every(s, p) && forall op :: op in ops && op.PutManifest? ==> p(op.manifest)
    ensures Every(Issue(s, ops), p)
  {
  }

  /** A commit, complete or not, adds only its own manifest to what the directory may hold. */
  lemma CommitHolds(s: Storage, m: Manifest, fault: Fault, p: Manifest -> bool)
    requires Every(s, p) && p(m)
    ensures Every(Committed(s, m, fault), p)
    ensures s.synced.manifest.Some? ==> Committed(s, m, fault).synced.manifest.Some?
  {
    var n := |Writes(m)|;
    assert Writes(m)[..n] == Writes(m);
    WritesHold(m, p, n);
    IssueHolds(s, Writes(m), p);
    VisibleHolds(Issue(s, Writes(m)), p);
    if fault.WriteFails? && fault.done < n {
      WritesHold(m, p, fault.done);
      IssueHolds(s, Writes(m)[..fault.done], p);
    } else if fault.RemoveFails? && Stale(s, m) != {} {
      IssueHolds(Renamed(s, m), Drops(fault.removed), p);
    }
  }

  // ---- A complete commit ----

  lemma {:induction false} SurvivorsAppend(d: Disk, a: seq<Op>, b: seq<Op>)
    ensures Survivors(d, a + b, All()) == Survivors(Survivors(d, a, All()), b, All())
    decreases |b|
  {
    if b == [] {
      assert a + b == a;
    } else {
      var last := |b| - 1;
      assert (a + b)[..|a| + last] == a + b[..last];
      SurvivorsAppend(d, a, b[..last]);
    }
  }

  lemma {:induction false} PutsLaw(d: Disk, version: nat, records: seq<Record>)
    requires forall i, j :: 0 <= i < j < |records| ==> records[i].id != records[j].id
    ensures var d' := Survivors(d, Puts(version, records), All());
            && d'.manifest == d.manifest
            && d'.files.Keys == d.files.Keys + Ids(records)
            && forall r :: r in records ==> r.id in d'.files && d'.files[r.id] == RecordFile(version, r)
    decreases |records|
  {
    if records != [] {
      var last := |records| - 1;
      var front, r := records[..last], records[last];
      assert records == front + [r];
      assert Puts(version, records)[..last] == Puts(version, front);
      PutsLaw(d, version, front);
      assert Ids(records) == Ids(front) + {r.id};
    }
  }

  lemma SoundIdsDistinct(m: Manifest)
    requires Sound(m)
    ensures forall i, j :: 0 <= i < j < |m.records| ==> m.records[i].id != m.records[j].id
  {
    forall i, j | 0 <= i < j < |m.records|
      ensures m.records[i].id != m.records[j].id
    {
      DistinctIds(m.records, i, j);
    }
  }

  lemma RenamedLaw(s: Storage, m: Manifest)
    requires Sound(m)
    ensures var d := Renamed(s, m).synced;
            && d.manifest == Some(m) && Ids(m.records) <= d.files.Keys
            && forall r :: r in m.records ==> r.id in d.files && d.files[r.id] == RecordFile(m.version, r)
  {
    SoundIdsDistinct(m);
    var puts := Puts(m.version, m.records);
    SurvivorsAppend(s.synced, s.pending, Writes(m));
    SurvivorsAppend(Visible(s), puts, [PutManifest(m)]);
    PutsLaw(Visible(s), m.version, m.records);
    var d := Survivors(Visible(s), puts, All());
    assert [PutManifest(m)][..0] == [];
    assert Survivors(d, [PutManifest(m)], All()) == Apply(d, PutManifest(m));
  }

  /** A commit that succeeds is durable, and reading it back, now or after a crash, gives that manifest. */
  lemma CommitRoundTrip(s: Storage, m: Manifest, fault: Fault, keep: nat -> bool)
    requires Sound(m) && !CommitFails(s, m, fault)
    ensures var s' := Committed(s, m, fault);
            && s'.pending == [] && Read(Visible(s')) == Some(m)
            && Crash(s', keep) == s' && s'.synced.files.Keys == Ids(m.records)
  {
    RenamedLaw(s, m);
    var files := Committed(s, m, fault).synced.files;
    assert files.Keys == Ids(m.records);
    assert forall id :: id in files ==> exists r :: r in m.records && r.id == id;
  }

  /**
    However a commit of `m` over a settled directory is cut short, and whatever survives a crash then,
    a successful read returns the old manifest or `m`, each with exactly its own record files.
  */
  lemma CommitIsAtomic(s: Storage, m: Manifest, fault: Fault, keep: nat -> bool)
    requires s.pending == []
    ensures var d := Crash(Committed(s, m, fault), keep).synced;
            var r := Read(d);
            r.Some? ==> (r.value == m || r == s.synced.manifest) && Matches(r.value, d.files)
  {
    var p := (x: Manifest) => x == m || Some(x) == s.synced.manifest;
    CommitHolds(s, m, fault, p);
    CrashHolds(Committed(s, m, fault), keep, p);
  }
}
