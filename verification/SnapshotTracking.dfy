/** Read-only volumes made from snapshots (service/controller.go): the tracking directory next to the source
    volume counts the volumes that use a snapshot, and a marker in it defers the snapshot's deletion. */
module SnapshotTracking {
  import opened Strings

  const DELETE_SNAPSHOT_MARKER := "DELETE_SNAPSHOT"
  const IGNORE_DOT_AND_DOT_DOT := 2

  /** The part of OneFS these calls see: snapshots by name, exports of snapshot paths by identifier, and for
      each snapshot its tracking directory, if there is one, with the subdirectories in it. */
  datatype Array = Array(snapshots: set<string>, exports: map<int, string>, dirs: map<string, set<string>>)

  predicate EntryExists(a: Array, s: string, entry: string) { s in a.dirs && entry in a.dirs[s] }

  /** The link count of the tracking directory; `None` when the directory does not exist. */
  function SubDirectoryCount(a: Array, s: string): Option<nat> {
    if s in a.dirs then Some(IGNORE_DOT_AND_DOT_DOT + |a.dirs[s]|) else None
  }

  function CountOrZero(a: Array, s: string): nat {
    match SubDirectoryCount(a, s) case Some(n) => n case None => 0
  }

  /** `found` is a truthful answer to the query for an export of the snapshot's path. */
  ghost predicate ExportQuery(a: Array, s: string, found: Option<int>) {
    match found
    case Some(id) => id in a.exports && a.exports[id] == s
    case None => forall id :: id in a.exports ==> a.exports[id] != s
  }

  function MakeDir(a: Array, s: string): Array { if s in a.dirs then a else a.(dirs := a.dirs[s := {}]) }

  function MakeEntry(a: Array, s: string, entry: string): Array {
    a.(dirs := a.dirs[s := (if s in a.dirs then a.dirs[s] else {}) + {entry}])
  }

  function RemoveEntry(a: Array, s: string, entry: string): Array {
    if s in a.dirs then a.(dirs := a.dirs[s := a.dirs[s] - {entry}]) else a
  }

  function RemoveDir(a: Array, s: string): Array { a.(dirs := a.dirs - {s}) }
  function Unexport(a: Array, id: int): Array { a.(exports := a.exports - {id}) }
  function RemoveSnapshot(a: Array, s: string): Array { a.(snapshots := a.snapshots - {s}) }

  // ---- the three calls, each array write with its fate ----

  datatype CreateWrites = CreateWrites(mkDir: bool, mkEntry: bool, exported: Option<int>, seen: bool)
  datatype DeleteWrites = DeleteWrites(rmEntry: bool, unexport: bool, rmDir: bool, rmSnapshot: bool)
  datatype SnapshotWrites = SnapshotWrites(unexport: bool, rmDir: bool, mkMarker: bool, rmSnapshot: bool)

  /** CreateVolume of a read-only volume; the result is the export identifier put into the volume ID. With
      quotas enabled an export that already exists has no quota tag, and the call reports NotFound. A new
      export that is not `seen` within ten looks fails the call without being taken back. */
  function CreateVolume(a: Array, s: string, v: string, found: Option<int>, quotaEnabled: bool, w: CreateWrites)
    : (Array, Option<int>)
  {
    var foundVol := EntryExists(a, s, v);
    if s !in a.snapshots then (a, None)
    else if !foundVol && CountOrZero(a, s) > IGNORE_DOT_AND_DOT_DOT then (a, None)
    else if !foundVol && !w.mkDir then (a, None)
    else if !foundVol && !w.mkEntry then (MakeDir(a, s), None)
    else
      var b := if foundVol then a else MakeEntry(a, s, v);
      if found.Some? then (b, if quotaEnabled then None else found)
      else if foundVol || w.exported.None? then (b, None)
      else (b.(exports := b.exports[w.exported.value := s]), if w.seen then w.exported else None)
  }

  /** processSnapshotTrackingDirectoryDuringDeleteVolume, after the look-up of the export by identifier. */
  function DeleteVolume(a: Array, v: string, id: int, w: DeleteWrites): (Array, bool) {
    if id !in a.exports then (a, true)
    else
      var s := a.exports[id];
      if EntryExists(a, s, v) && !w.rmEntry then (a, false)
      else
        var b := if EntryExists(a, s, v) then RemoveEntry(a, s, v) else a;
        if SubDirectoryCount(b, s).None? then (b, true)
        else if EntryExists(b, s, DELETE_SNAPSHOT_MARKER) && CountOrZero(b, s) == 3 then
          if !w.unexport then (b, true)
          else if !w.rmDir then (Unexport(b, id), true)
          else if !w.rmSnapshot then (RemoveDir(Unexport(b, id), s), true)
          else (RemoveSnapshot(RemoveDir(Unexport(b, id), s), s), true)
        else if CountOrZero(b, s) == 2 && w.rmDir then (RemoveDir(b, s), true)
        else (b, true)
  }

  /** DeleteSnapshot with processSnapshotTrackingDirectoryDuringDeleteSnapshot. */
  function DeleteSnapshot(a: Array, s: string, found: Option<int>, w: SnapshotWrites): (Array, bool) {
    if s !in a.snapshots then (a, true)
    else if found.None? then
      if w.rmSnapshot then (RemoveSnapshot(a, s), true) else (a, false)
    else if CountOrZero(a, s) == IGNORE_DOT_AND_DOT_DOT || CountOrZero(a, s) == 0 then
      if !w.unexport then (a, false)
      else
        var b := if w.rmDir then RemoveDir(Unexport(a, found.value), s) else Unexport(a, found.value);
        if w.rmSnapshot then (RemoveSnapshot(b, s), true) else (b, false)
    else if w.mkMarker then (MakeEntry(a, s, DELETE_SNAPSHOT_MARKER), true)
    else (a, false)
  }

  /** The same three calls, one array write after the other. */
  class Controller {
    var onefs: Array

    constructor (initial: Array)
      ensures onefs == initial
    {
      onefs := initial;
    }

    /** GetExportWithPathAndZone answers truthfully. */
    method FindExport(s: string) returns (found: Option<int>)
      ensures ExportQuery(onefs, s, found)
    {
      if id :| id in onefs.exports && onefs.exports[id] == s { return Some(id); }
      return None;
    }

    method CreateROVolume(s: string, v: string, quotaEnabled: bool, w: CreateWrites)
      returns (exportID: Option<int>, ghost found: Option<int>)
      modifies this
      ensures ExportQuery(old(onefs), s, found)
      ensures (onefs, exportID) == CreateVolume(old(onefs), s, v, found, quotaEnabled, w)
    {
      var answer := FindExport(s);
      found := answer;
      exportID := None;
      if s !in onefs.snapshots { return; }
      var foundVol := EntryExists(onefs, s, v);
      if !foundVol {
        var total := CountOrZero(onefs, s);
        if total > IGNORE_DOT_AND_DOT_DOT { return; }
        if !w.mkDir { return; }
        onefs := MakeDir(onefs, s);
        if !w.mkEntry { return; }
        onefs := MakeEntry(onefs, s, v);
        assert onefs.dirs == MakeEntry(old(onefs), s, v).dirs;
      }
      var hit := FindExport(s);
      match hit
      case Some(id) =>
        if !quotaEnabled { exportID := Some(id); }
        found := hit;
      case None =>
        if foundVol { return; }
        if w.exported.Some? {
          onefs := onefs.(exports := onefs.exports[w.exported.value := s]);
          if w.seen { exportID := w.exported; }
        }
    }

    method DeleteROVolume(v: string, id: int, w: DeleteWrites) returns (ok: bool)
      modifies this
      ensures (onefs, ok) == DeleteVolume(old(onefs), v, id, w)
    {
      ok := true;
      if id !in onefs.exports { return; }
      var s := onefs.exports[id];
      if EntryExists(onefs, s, v) {
        if !w.rmEntry { return false; }
        onefs := RemoveEntry(onefs, s, v);
      }
      var total := SubDirectoryCount(onefs, s);
      if total.None? { return; }
      if EntryExists(onefs, s, DELETE_SNAPSHOT_MARKER) {
        if total.value == 3 {
          if !w.unexport { return; }
          onefs := Unexport(onefs, id);
          if !w.rmDir { return; }
          onefs := RemoveDir(onefs, s);
          if !w.rmSnapshot { return; }
          onefs := RemoveSnapshot(onefs, s);
        }
      }
      if total.value == 2 {
        if !w.rmDir { return; }
        onefs := RemoveDir(onefs, s);
      }
    }

    method DeleteSourceSnapshot(s: string, w: SnapshotWrites) returns (ok: bool, ghost found: Option<int>)
      modifies this
      ensures ExportQuery(old(onefs), s, found)
      ensures (onefs, ok) == DeleteSnapshot(old(onefs), s, found, w)
    {
      var hit := FindExport(s);
      found, ok := hit, true;
      if s !in onefs.snapshots { return; }
      if hit.Some? {
        var total := CountOrZero(onefs, s);
        if total == IGNORE_DOT_AND_DOT_DOT || total == 0 {
          if !w.unexport { ok := false; return; }
          onefs := Unexport(onefs, hit.value);
          if w.rmDir { onefs := RemoveDir(onefs, s); }
        } else {
          if !w.mkMarker { ok := false; return; }
          onefs := MakeEntry(onefs, s, DELETE_SNAPSHOT_MARKER);
          return;
        }
      }
      if !w.rmSnapshot { ok := false; return; }
      onefs := RemoveSnapshot(onefs, s);
    }
  }

  // ---- whole runs ----

  datatype Volume = Volume(snapshot: string, name: string, exportID: int)

  /** `live` holds the volumes whose creation was acknowledged and whose deletion was not. */
  datatype System = System(onefs: Array, live: set<Volume>)

  datatype Action =
    | TakeSnapshot(s: string)
    | Create(s: string, v: string, found: Option<int>, quotaEnabled: bool, cw: CreateWrites)
    | Delete(v: string, id: int, dw: DeleteWrites)
    | DropSnapshot(s: string, found: Option<int>, sw: SnapshotWrites)

  /** Reads are truthful, new exports get unused identifiers, no volume is named like the marker. */
  ghost predicate Enabled(sys: System, act: Action) {
    match act
    case TakeSnapshot(_) => true
    case Create(s, v, found, _, w) =>
      && v != DELETE_SNAPSHOT_MARKER && ExportQuery(sys.onefs, s, found)
      && (w.exported.Some? ==> w.exported.value !in sys.onefs.exports)
    case Delete(v, _, _) => v != DELETE_SNAPSHOT_MARKER
    case DropSnapshot(s, found, _) => ExportQuery(sys.onefs, s, found)
  }

  ghost function Do(sys: System, act: Action): System {
    match act
    case TakeSnapshot(s) => sys.(onefs := sys.onefs.(snapshots := sys.onefs.snapshots + {s}))
    case Create(s, v, found, quotaEnabled, w) =>
      var (a, id) := CreateVolume(sys.onefs, s, v, found, quotaEnabled, w);
      System(a, if id.Some? then sys.live + {Volume(s, v, id.value)} else sys.live)
    case Delete(v, id, w) =>
      var (a, ok) := DeleteVolume(sys.onefs, v, id, w);
      System(a, if ok then set x | x in sys.live && !(x.name == v && x.exportID == id) else sys.live)
    case DropSnapshot(s, found, w) => sys.(onefs := DeleteSnapshot(sys.onefs, s, found, w).0)
  }

  ghost predicate InUse(a: Array, x: Volume) {
    && x.snapshot in a.snapshots
    && x.exportID in a.exports && a.exports[x.exportID] == x.snapshot
    && x.snapshot in a.dirs && x.name in a.dirs[x.snapshot] && x.name != DELETE_SNAPSHOT_MARKER
  }

  /** At most one volume entry per tracking directory; the marker does not count. */
  ghost predicate OneEntry(entries: set<string>) {
    forall v, w :: v in entries && w in entries && v != DELETE_SNAPSHOT_MARKER && w != DELETE_SNAPSHOT_MARKER ==> v == w
  }

  /** At most one export for each snapshot. */
  ghost predicate OneExportEach(a: Array) {
    forall i, j :: i in a.exports && j in a.exports && a.exports[i] == a.exports[j] ==> i == j
  }

  ghost predicate Inv(sys: System) {
    && (forall x :: x in sys.live ==> InUse(sys.onefs, x))
    && (forall s :: s in sys.onefs.dirs ==> OneEntry(sys.onefs.dirs[s]))
    && OneExportEach(sys.onefs)
  }

  lemma CountIsTwoWhenEmpty(a: Array, s: string)
    ensures CountOrZero(a, s) <= 2 <==> s !in a.dirs || a.dirs[s] == {}
  {
  }

  lemma KeepCreate(sys: System, s: string, v: string, found: Option<int>, quotaEnabled: bool, w: CreateWrites)
    requires Inv(sys) && Enabled(sys, Create(s, v, found, quotaEnabled, w))
    ensures Inv(Do(sys, Create(s, v, found, quotaEnabled, w)))
  {
    CountIsTwoWhenEmpty(sys.onefs, s);
  }

  /** An entry other than the deleted one keeps the directory, the export and the snapshot. */
  lemma OtherEntryProtects(a: Array, x: Volume, v: string, id: int, w: DeleteWrites)
    requires InUse(a, x) && OneEntry(a.dirs[x.snapshot])
    requires OneExportEach(a)
    requires v != DELETE_SNAPSHOT_MARKER
    ensures var (b, ok) := DeleteVolume(a, v, id, w);
            (x.name == v && x.exportID == id && ok) || InUse(b, x)
  {
    if id in a.exports && a.exports[id] == x.snapshot {
      assert id == x.exportID;
      if x.name != v {
        assert !EntryExists(a, x.snapshot, v);
        DirectoryStaysBusy(a, x);
      }
    } else {
      OtherSnapshotUntouched(a, x, v, id, w);
    }
  }

  lemma OtherSnapshotUntouched(a: Array, x: Volume, v: string, id: int, w: DeleteWrites)
    requires InUse(a, x) && (id in a.exports ==> a.exports[id] != x.snapshot)
    ensures InUse(DeleteVolume(a, v, id, w).0, x)
  {
  }

  /** A directory with a volume entry never shows the count that triggers a clean-up. */
  lemma DirectoryStaysBusy(a: Array, x: Volume)
    requires InUse(a, x)
    ensures CountOrZero(a, x.snapshot) > 2
    ensures EntryExists(a, x.snapshot, DELETE_SNAPSHOT_MARKER) ==> CountOrZero(a, x.snapshot) > 3
  {
    var entries := a.dirs[x.snapshot];
    assert |entries - {x.name}| == |entries| - 1;
    if DELETE_SNAPSHOT_MARKER in entries { TwoElements(entries, x.name, DELETE_SNAPSHOT_MARKER); }
  }

  lemma TwoElements(entries: set<string>, v: string, w: string)
    requires v in entries && w in entries && v != w
    ensures |entries| >= 2
  {
    assert |entries - {v}| == |entries| - 1;
    assert w in entries - {v};
  }

  lemma KeepDelete(sys: System, v: string, id: int, w: DeleteWrites)
    requires Inv(sys) && Enabled(sys, Delete(v, id, w))
    ensures Inv(Do(sys, Delete(v, id, w)))
  {
    var t := Do(sys, Delete(v, id, w));
    forall x | x in t.live ensures InUse(t.onefs, x) {
      assert x in sys.live;
      OtherEntryProtects(sys.onefs, x, v, id, w);
    }
  }

  lemma KeepDropSnapshot(sys: System, s: string, found: Option<int>, w: SnapshotWrites)
    requires Inv(sys) && Enabled(sys, DropSnapshot(s, found, w))
    ensures Inv(Do(sys, DropSnapshot(s, found, w)))
  {
    CountIsTwoWhenEmpty(sys.onefs, s);
  }

  lemma StepKeepsInv(sys: System, act: Action)
    requires Inv(sys) && Enabled(sys, act)
    ensures Inv(Do(sys, act))
  {
    match act
    case TakeSnapshot(_) =>
    case Create(s, v, found, quotaEnabled, w) => KeepCreate(sys, s, v, found, quotaEnabled, w);
    case Delete(v, id, w) => KeepDelete(sys, v, id, w);
    case DropSnapshot(s, found, w) => KeepDropSnapshot(sys, s, found, w);
  }

  ghost predicate Run(trace: seq<System>, acts: seq<Action>) {
    && |trace| == |acts| + 1
    && (forall i :: 0 <= i < |acts| ==> Enabled(trace[i], acts[i]) && trace[i + 1] == Do(trace[i], acts[i]))
  }

  lemma {:induction false} RunKeepsInv(trace: seq<System>, acts: seq<Action>, i: nat)
    requires Run(trace, acts) && Inv(trace[0]) && i < |trace|
    ensures Inv(trace[i])
  {
    if i > 0 {
      RunKeepsInv(trace, acts, i - 1);
      StepKeepsInv(trace[i - 1], acts[i - 1]);
    }
  }

  /** Snapshot safety over all runs: whatever array writes fail and in whatever order the calls come, every
      acknowledged volume that has not been deleted keeps its tracking entry, its export and its source
      snapshot, and it is the only live volume on that snapshot. */
  lemma LiveVolumesKeepTheirSnapshot(trace: seq<System>, acts: seq<Action>, i: nat, x: Volume)
    requires Run(trace, acts) && Inv(trace[0]) && i < |trace| && x in trace[i].live
    ensures var a := trace[i].onefs;
            && x.snapshot in a.snapshots
            && x.exportID in a.exports && a.exports[x.exportID] == x.snapshot
            && EntryExists(a, x.snapshot, x.name)
    ensures forall y :: y in trace[i].live && y.snapshot == x.snapshot ==> y == x
  {
    RunKeepsInv(trace, acts, i);
  }

  /** An array without tracking state satisfies the invariant, so runs may start there. */
  lemma FreshArrayIsSafe(snapshots: set<string>)
    ensures Inv(System(Array(snapshots, map[], map[]), {}))
  {
  }

  // ---- deleting both ----

  const ALL_DELETE_WRITES := DeleteWrites(true, true, true, true)
  const ALL_SNAPSHOT_WRITES := SnapshotWrites(true, true, true, true)

  ghost function Cleaned(a: Array, s: string, id: int): Array {
    Array(a.snapshots - {s}, a.exports - {id}, a.dirs - {s})
  }

  /** Both deletion orders end in the same state: snapshot, export and tracking directory are gone and
      nothing else changed. */
  lemma DeletionOrdersAgree(a: Array, x: Volume)
    requires InUse(a, x) && a.dirs[x.snapshot] == {x.name}
    ensures var marked := DeleteSnapshot(a, x.snapshot, Some(x.exportID), ALL_SNAPSHOT_WRITES).0;
            DeleteVolume(marked, x.name, x.exportID, ALL_DELETE_WRITES) == (Cleaned(a, x.snapshot, x.exportID), true)
    ensures var unused := DeleteVolume(a, x.name, x.exportID, ALL_DELETE_WRITES).0;
            && ExportQuery(unused, x.snapshot, Some(x.exportID))
            && DeleteSnapshot(unused, x.snapshot, Some(x.exportID), ALL_SNAPSHOT_WRITES)
               == (Cleaned(a, x.snapshot, x.exportID), true)
  {
    var s, v, id := x.snapshot, x.name, x.exportID;
    var marked := DeleteSnapshot(a, s, Some(id), ALL_SNAPSHOT_WRITES).0;
    assert marked.dirs[s] == {v, DELETE_SNAPSHOT_MARKER};
    assert RemoveEntry(marked, s, v).dirs[s] == {DELETE_SNAPSHOT_MARKER};
    assert RemoveEntry(a, s, v).dirs[s] == {};
    assert RemoveEntry(marked, s, v).dirs - {s} == a.dirs - {s};
    assert RemoveEntry(a, s, v).dirs - {s} == a.dirs - {s};
    assert (a.dirs - {s}) - {s} == a.dirs - {s};
  }

  /** With the deletion marker set, the last DeleteVolume is acknowledged as soon as the entry is gone; the
      snapshot, its export and the directory really disappear exactly when the remaining writes succeed. */
  lemma MarkerCleanupIffWritesSucceed(a: Array, x: Volume, w: DeleteWrites)
    requires InUse(a, x) && a.dirs[x.snapshot] == {x.name, DELETE_SNAPSHOT_MARKER}
    ensures var (b, ok) := DeleteVolume(a, x.name, x.exportID, w);
            && (ok <==> w.rmEntry)
            && (b == Cleaned(a, x.snapshot, x.exportID) <==> w.rmEntry && w.unexport && w.rmDir && w.rmSnapshot)
  {
    var s, v, id := x.snapshot, x.name, x.exportID;
    var b := RemoveEntry(a, s, v);
    assert b.dirs[s] == {DELETE_SNAPSHOT_MARKER};
    assert b.dirs - {s} == a.dirs - {s};
    assert s in a.snapshots && id in a.exports;
  }

  /** And a snapshot left behind that way stays: once the export is gone, no retry of DeleteVolume does
      anything. */
  lemma LostCleanupIsNeverRetried(a: Array, x: Volume, w: DeleteWrites, retry: DeleteWrites)
    requires InUse(a, x) && a.dirs[x.snapshot] == {x.name, DELETE_SNAPSHOT_MARKER}
    requires w.rmEntry && w.unexport && !(w.rmDir && w.rmSnapshot)
    ensures var b := DeleteVolume(a, x.name, x.exportID, w).0;
            x.snapshot in b.snapshots && DeleteVolume(b, x.name, x.exportID, retry) == (b, true)
  {
    assert RemoveEntry(a, x.snapshot, x.name).dirs[x.snapshot] == {DELETE_SNAPSHOT_MARKER};
  }

  // ---- repeating a creation ----

  /** Read-only creation is idempotent exactly when quotas are off: after a success the same request changes
      nothing, but with quotas on it is refused, because the export has no quota. */
  lemma ROCreateIdempotentIff(a: Array, s: string, v: string, found: Option<int>, quotaEnabled: bool, w: CreateWrites,
                              again: Option<int>, g: CreateWrites)
    requires OneExportEach(a) && ExportQuery(a, s, found)
    requires w.exported.Some? ==> w.exported.value !in a.exports
    requires CreateVolume(a, s, v, found, quotaEnabled, w).1.Some?
    requires ExportQuery(CreateVolume(a, s, v, found, quotaEnabled, w).0, s, again)
    ensures var (b, id) := CreateVolume(a, s, v, found, quotaEnabled, w);
            && CreateVolume(b, s, v, again, quotaEnabled, g).0 == b
            && (CreateVolume(b, s, v, again, quotaEnabled, g).1 == id <==> !quotaEnabled)
  {
    var (b, id) := CreateVolume(a, s, v, found, quotaEnabled, w);
    assert b.exports == if found.None? then a.exports[id.value := s] else a.exports;
    TheOnlyExport(b, s, id.value, again);
  }

  lemma TheOnlyExport(b: Array, s: string, id: int, found: Option<int>)
    requires id in b.exports && b.exports[id] == s && ExportQuery(b, s, found)
    requires forall k :: k in b.exports && b.exports[k] == s ==> k == id
    ensures found == Some(id)
  {
  }

  /** A failed creation completes on retry exactly when it left an entry with an export, and quotas are off, or
      left no entry: an entry whose export could not be made blocks the volume for good. */
  lemma RORetryCompletesIff(a: Array, s: string, v: string, found: Option<int>, quotaEnabled: bool, w: CreateWrites,
                            again: Option<int>, id: int)
    requires s in a.snapshots && OneExportEach(a) && ExportQuery(a, s, found) && !EntryExists(a, s, v)
    requires CountOrZero(a, s) <= IGNORE_DOT_AND_DOT_DOT && (w.exported.Some? ==> w.exported.value !in a.exports)
    requires CreateVolume(a, s, v, found, quotaEnabled, w).1.None?
    requires ExportQuery(CreateVolume(a, s, v, found, quotaEnabled, w).0, s, again)
    ensures var b := CreateVolume(a, s, v, found, quotaEnabled, w).0;
            CreateVolume(b, s, v, again, quotaEnabled, CreateWrites(true, true, Some(id), true)).1.Some?
            <==> if again.Some? then !quotaEnabled else !w.mkDir || !w.mkEntry
  {
    CountIsTwoWhenEmpty(a, s);
  }

  /** With quotas on, a second read-only volume on an exported snapshot is refused and leaves an entry that
      blocks the snapshot for every volume. */
  lemma QuotasBlockTheSnapshot(a: Array, s: string, v: string, found: Option<int>, w: CreateWrites,
                               other: string, again: Option<int>, quotaEnabled: bool, g: CreateWrites)
    requires s in a.snapshots && found.Some? && ExportQuery(a, s, found) && !EntryExists(a, s, v)
    requires CountOrZero(a, s) <= IGNORE_DOT_AND_DOT_DOT && w.mkDir && w.mkEntry
    requires ExportQuery(MakeEntry(a, s, v), s, again)
    ensures CreateVolume(a, s, v, found, true, w) == (MakeEntry(a, s, v), None)
    ensures other != v || quotaEnabled ==>
              CreateVolume(MakeEntry(a, s, v), s, other, again, quotaEnabled, g) == (MakeEntry(a, s, v), None)
  {
    CountIsTwoWhenEmpty(a, s);
    var b := MakeEntry(a, s, v);
    assert b.dirs[s] == {v};
    assert b.exports == a.exports && found.value in b.exports;
  }

  // ---- each call in full ----

  /** No volume uses the snapshot: it has no tracking directory or an empty one. */
  predicate Unused(a: Array, s: string) { s !in a.dirs || a.dirs[s] == {} }

  /** DeleteSnapshot for every state and every pattern of writes: when the snapshot is gone, when the call is
      acknowledged, and what happens to exports and tracking directories. */
  lemma DeleteSnapshotExact(a: Array, s: string, found: Option<int>, w: SnapshotWrites)
    requires ExportQuery(a, s, found)
    ensures var (b, ok) := DeleteSnapshot(a, s, found, w);
            && (s !in b.snapshots
                <==> s !in a.snapshots || (w.rmSnapshot && (found.None? || (Unused(a, s) && w.unexport))))
            && b.snapshots - {s} == a.snapshots - {s}
            && (ok ==> s !in b.snapshots || (s in b.dirs && "DELETE_SNAPSHOT" in b.dirs[s]))
            && (ok <==> s !in b.snapshots || (found.Some? && !Unused(a, s) && w.mkMarker))
    ensures var b := DeleteSnapshot(a, s, found, w).0;
            var cleaning := s in a.snapshots && found.Some? && Unused(a, s) && w.unexport;
            && b.exports == (if cleaning then a.exports - {found.value} else a.exports)
            && b.dirs - {s} == a.dirs - {s}
            && (cleaning && w.rmDir ==> s !in b.dirs)
            && (!(cleaning && w.rmDir) && s in a.dirs ==>
                  s in b.dirs && b.dirs[s] - {"DELETE_SNAPSHOT"} == a.dirs[s] - {"DELETE_SNAPSHOT"})
            && (s in b.dirs ==> s in a.dirs)
            && (s in b.dirs && !(s in a.snapshots && found.Some? && !Unused(a, s) && w.mkMarker) ==>
                  b.dirs[s] == a.dirs[s])
  {
    CountIsTwoWhenEmpty(a, s);
    var b := DeleteSnapshot(a, s, found, w).0;
    assert b.dirs - {s} == a.dirs - {s};
    assert b.snapshots - {s} == a.snapshots - {s};
  }

  lemma OneMarker(entries: set<string>)
    ensures DELETE_SNAPSHOT_MARKER in entries && |entries| == 1 <==> entries == {DELETE_SNAPSHOT_MARKER}
  {
    if DELETE_SNAPSHOT_MARKER in entries { assert |entries - {DELETE_SNAPSHOT_MARKER}| == |entries| - 1; }
  }

  /** DeleteVolume of a read-only volume, the same. `rest` is what the entry leaves in the directory. */
  lemma DeleteVolumeExact(a: Array, v: string, id: int, w: DeleteWrites)
    requires id in a.exports
    ensures var s := a.exports[id]; var (b, ok) := DeleteVolume(a, v, id, w);
            var had := s in a.dirs && v in a.dirs[s];
            var rest := if s in a.dirs then a.dirs[s] - {v} else {};
            var last := ok && s in a.dirs && rest == {"DELETE_SNAPSHOT"};
            && (ok <==> !had || w.rmEntry)
            && (!ok ==> b == a)
            && b.exports == (if last && w.unexport then a.exports - {id} else a.exports)
            && b.snapshots == (if last && w.unexport && w.rmDir && w.rmSnapshot then a.snapshots - {s} else a.snapshots)
            && b.dirs - {s} == a.dirs - {s}
            && (ok && s in b.dirs ==> b.dirs[s] == rest)
            && (ok ==> (s in b.dirs <==> s in a.dirs && !(last && w.unexport && w.rmDir) && !(rest == {} && w.rmDir)))
  {
    var s := a.exports[id];
    var (b, ok) := DeleteVolume(a, v, id, w);
    if s in a.dirs {
      var rest := a.dirs[s] - {v};
      OneMarker(rest);
      assert v !in a.dirs[s] ==> rest == a.dirs[s];
    }
    assert b.dirs - {s} == a.dirs - {s};
  }

  /** CreateVolume of a read-only volume, the same: when it succeeds and what it then leaves. */
  lemma CreateVolumeExact(a: Array, s: string, v: string, found: Option<int>, quotaEnabled: bool, w: CreateWrites)
    requires ExportQuery(a, s, found)
    ensures var (b, id) := CreateVolume(a, s, v, found, quotaEnabled, w);
            var had := s in a.dirs && v in a.dirs[s];
            var made := s in a.snapshots && !had && Unused(a, s) && w.mkDir && w.mkEntry;
            && (id.Some? <==> if found.Some? then s in a.snapshots && (had || made) && !quotaEnabled
                              else made && w.exported.Some? && w.seen)
            && (id.Some? ==> id == (if found.Some? then found else w.exported) && b.exports[id.value] == s)
            && b.snapshots == a.snapshots && b.dirs - {s} == a.dirs - {s}
            && (made ==> s in b.dirs && b.dirs[s] == {v})
            && (!made && s in a.dirs ==> b.dirs == a.dirs)
            && (!made && s !in a.dirs && s in b.dirs ==> b.dirs[s] == {})
            && b.exports == if made && found.None? && w.exported.Some?
                            then a.exports[w.exported.value := s] else a.exports
  {
    CountIsTwoWhenEmpty(a, s);
    var b := CreateVolume(a, s, v, found, quotaEnabled, w).0;
    assert b.dirs - {s} == a.dirs - {s};
  }
}
