/** CreateVolume and DeleteVolume on the array (service/controller.go) for volumes without a content source,
    in both provisioning modes. Reads are truthful; every array write has a fate of its own. */
module VolumeLifecycle {
  import opened Strings
  import opened Paths
  import opened Identifiers
  import opened QuotaTag
  import QuotaThresholds
  import SnapshotPaths

  const MAX_QUOTA_RETRIES := 3
  const MAX_RETRIES := 10
  const IGNORE_DOT_AND_DOT_DOT := 2
  const DUMMY_CLIENT := "localhost"

  datatype QuotaRecord = QuotaRecord(path: string, thresholds: QuotaThresholds.Quota)
  datatype Export = Export(paths: seq<string>, zone: string, description: string, clients: set<string>)
  datatype Array = Array(dirs: set<string>, quotas: map<string, QuotaRecord>, exports: map<int, Export>)

  // ---- the array ----

  predicate Below(d: string, p: string) { d == p || HasPrefix(d, p + SLASH) }

  /** Deleting a directory deletes what is below it. */
  function RemoveTree(a: Array, p: string): Array { a.(dirs := set d | d in a.dirs && !Below(d, p)) }

  predicate IsChild(d: string, p: string) { HasPrefix(d, p + SLASH) && '/' !in d[|p| + 1..] }

  /** The link count: subdirectories only, plus the two dot entries. */
  function SubDirectoryCount(a: Array, p: string): nat {
    IGNORE_DOT_AND_DOT_DOT + |set d | d in a.dirs && IsChild(d, p)|
  }

  predicate Serves(e: Export, path: string, zone: string) { path in e.paths && e.zone == zone }

  ghost predicate ExportQuery(a: Array, path: string, zone: string, found: Option<int>) {
    match found
    case Some(id) => id in a.exports && Serves(a.exports[id], path, zone)
    case None => forall id :: id in a.exports ==> !Serves(a.exports[id], path, zone)
  }

  ghost predicate QuotaQuery(a: Array, path: string, found: Option<string>) {
    match found
    case Some(id) => id in a.quotas && a.quotas[id].path == path
    case None => forall id :: id in a.quotas ==> a.quotas[id].path != path
  }

  function ExportsOf(a: Array, path: string, zone: string): set<int> {
    set id | id in a.exports && Serves(a.exports[id], path, zone)
  }

  // ---- requests and fates ----

  datatype Mode = ExportBacked(isiPath: string) | DirectoryBacked(shared: string)

  datatype Request = Request(name: string, size: int, soft: string, advisory: string, grace: string,
                             zone: string, cluster: string, quotaEnabled: bool, mode: Mode)

  /** What becomes of each write: `quota(k)` of the k-th quota attempt, `polls` how often a new export must
      be looked for before it is visible. */
  datatype Fates = Fates(unexport: bool, mkDir: bool, quota: nat -> bool, quotaID: string, clearQuota: bool,
                         rmDir: bool, exportID: Option<int>, polls: nat, addClient: bool)

  function Thresholds(r: Request): Option<QuotaThresholds.Quota> {
    QuotaThresholds.NewThresholds(r.soft, r.advisory, r.grace, r.size, r.quotaEnabled || r.mode.DirectoryBacked?)
  }

  predicate QuotaAttempted(f: Fates) { f.quota(1) || f.quota(2) || f.quota(3) }

  /** The quota of a new volume, after up to three attempts; `None` when all fail. */
  function WithQuota(a: Array, path: string, r: Request, f: Fates): Option<(Array, string)> {
    match Thresholds(r)
    case None => Some((a, ""))
    case Some(t) =>
      if QuotaAttempted(f) then Some((a.(quotas := a.quotas[f.quotaID := QuotaRecord(path, t)]), f.quotaID)) else None
  }

  // ---- CreateVolume ----

  function VolumePathOf(r: Request): string {
    match r.mode
    case ExportBacked(isiPath) => GetPathForVolume(isiPath, r.name)
    case DirectoryBacked(shared) => JoinPath([shared, r.name])
  }

  /** Directory and quota; `existing` says that the directory was already there and only lacks its quota. */
  function Provision(a: Array, r: Request, existing: bool, f: Fates): (Array, Option<string>) {
    var path := VolumePathOf(r);
    if !existing && !f.mkDir then (a, None)
    else
      var b := if existing then a else a.(dirs := a.dirs + {path});
      match WithQuota(b, path, r, f)
      case None => (if f.rmDir then RemoveTree(b, path) else b, None)
      case Some((c, quotaID)) => (c, Some(quotaID))
  }

  predicate SharedPathOk(shared: string) { HasPrefix(shared, SLASH) && Index(shared, "..") == -1 }

  function CreateDirectoryBacked(a: Array, r: Request, found: Option<int>, quota: Option<string>, f: Fates)
    : (Array, Option<string>)
    requires r.mode.DirectoryBacked? && QuotaQuery(a, VolumePathOf(r), quota)
  {
    var path := VolumePathOf(r);
    if !SharedPathOk(r.mode.shared) || found.None? then (a, None)
    else
      var volID := GetDirectoryBackedVolumeID(VolumeId(r.name, found.value, r.zone, r.cluster));
      if path in a.dirs && quota.Some? then
        (a, if a.quotas[quota.value].thresholds.hard == r.size then Some(volID) else None)
      else if path in a.dirs && SubDirectoryCount(a, path) > IGNORE_DOT_AND_DOT_DOT then (a, None)
      else
        var (b, quotaID) := Provision(a, r, path in a.dirs, f);
        (b, if quotaID.None? then None else Some(volID))
  }

  /** GetVolumeQuota: the hard limit of the quota named in the description of the export. */
  function TaggedHardLimit(a: Array, e: Export): Option<int> {
    var q := GetQuotaIDFromDescription(e.description);
    if q != "" && q in a.quotas then Some(a.quotas[q].thresholds.hard) else None
  }

  function ExportNew(a: Array, r: Request, quotaID: string, f: Fates): (Array, Option<string>) {
    var path := VolumePathOf(r);
    match f.exportID
    case None =>
      var b := if quotaID != "" && f.clearQuota then a.(quotas := a.quotas - {quotaID}) else a;
      (if f.rmDir then RemoveTree(b, path) else b, None)
    case Some(id) =>
      var e := Export([path], r.zone, GetQuotaIDWithCSITag(quotaID), {});
      if f.polls >= MAX_RETRIES then (a.(exports := a.exports[id := e]), None)
      else
        var e' := if f.addClient then e.(clients := {DUMMY_CLIENT}) else e;
        var tokens := Split(path, SLASH);
        (a.(exports := a.exports[id := e']),
         Some(GetNormalizedVolumeID(VolumeId(tokens[|tokens| - 1], id, r.zone, r.cluster))))
  }

  function CreateExportBacked(a: Array, r: Request, found: Option<int>, f: Fates): (Array, Option<string>)
    requires found.Some? ==> found.value in a.exports
  {
    var path := VolumePathOf(r);
    if path in a.dirs then
      if found.None? then (a, None)
      else if r.quotaEnabled && TaggedHardLimit(a, a.exports[found.value]) != Some(r.size) then (a, None)
      else (a, Some(GetNormalizedVolumeID(VolumeId(r.name, found.value, a.exports[found.value].zone, r.cluster))))
    else if found.Some? && !f.unexport then (a, None)
    else
      var b := if found.Some? then a.(exports := a.exports - {found.value}) else a;
      var (c, quotaID) := Provision(b, r, false, f);
      if quotaID.None? then (c, None) else ExportNew(c, r, quotaID.value, f)
  }

  // ---- DeleteVolume ----

  datatype DeleteFates = DeleteFates(clearQuota: bool, unexport: bool, rmDir: bool)
  datatype DeleteResult = Deleted | Refused | SnapshotVolume

  /** The mode token decides; without one, an export whose path is not the volume's own path is shared. */
  function IsDirectoryBacked(volID: string, exportPath: string, volName: string): bool
    requires exportPath != ""
  {
    match ParseVolumeIDWithMode(volID)
    case Some((_, mode)) =>
      if mode != "" then mode == PROVISIONING_MODE_DIRECTORY
      else exportPath != GetPathForVolume(GetIsiPathFromExportPath(exportPath), volName)
    case None => exportPath != GetPathForVolume(GetIsiPathFromExportPath(exportPath), volName)
  }

  function RemoveDirectory(a: Array, path: string, ok: bool): (Array, DeleteResult) {
    if path !in a.dirs then (a, Deleted)
    else if ok then (RemoveTree(a, path), Deleted)
    else (a, Refused)
  }

  function ClearQuota(a: Array, id: string): Array { a.(quotas := a.quotas - {id}) }

  function DeleteDirectoryBacked(a: Array, path: string, quota: Option<string>, f: DeleteFates): (Array, DeleteResult) {
    if quota.Some? && !f.clearQuota then (a, Refused)
    else RemoveDirectory(if quota.Some? then ClearQuota(a, quota.value) else a, path, f.rmDir)
  }

  /** The quota goes first, then the export if it is the only one of the path, then the directory. */
  function DeleteExportBacked(a: Array, path: string, id: int, f: DeleteFates): (Array, DeleteResult)
    requires id in a.exports
  {
    var q := GetQuotaIDFromDescription(a.exports[id].description);
    if q in a.quotas && q != "" && !f.clearQuota then (a, Refused)
    else
      var b := if q != "" then ClearQuota(a, q) else a;
      var es := ExportsOf(b, path, a.exports[id].zone);
      if |es| > 1 then (b, Refused)
      else if es == {id} && !f.unexport then (b, Refused)
      else RemoveDirectory(if es == {id} then b.(exports := b.exports - {id}) else b, path, f.rmDir)
  }

  /** What a volume ID leads DeleteVolume to. */
  datatype Victim =
    | Nothing                       // unparsable ID, or no such export: already deleted
    | WithoutPath
    | OfSnapshot
    | SubDirectory(path: string)    // of a shared export
    | Own(path: string, id: int)    // with its own export

  function Resolve(a: Array, volID: string): (r: Victim)
    ensures r.Own? ==> r.id in a.exports
  {
    match ParseNormalizedVolumeID(volID)
    case None => Nothing
    case Some(v) =>
      if v.exportID !in a.exports || a.exports[v.exportID].zone != v.zone then Nothing
      else if a.exports[v.exportID].paths == [] || a.exports[v.exportID].paths[0] == "" then WithoutPath
      else
        var exportPath := a.exports[v.exportID].paths[0];
        if SnapshotPaths.IsROVolumeFromSnapshot(exportPath, v.zone) then OfSnapshot
        else if IsDirectoryBacked(volID, exportPath, v.name) then SubDirectory(GetPathForVolume(exportPath, v.name))
        else Own(GetPathForVolume(GetIsiPathFromExportPath(exportPath), v.name), v.exportID)
  }

  /** `quota` answers the look-up by path that the directory-backed branch makes. */
  function DeleteVolume(a: Array, volID: string, quota: Option<string>, f: DeleteFates): (Array, DeleteResult) {
    match Resolve(a, volID)
    case Nothing => (a, Deleted)
    case WithoutPath => (a, Refused)
    case OfSnapshot => (a, SnapshotVolume)
    case SubDirectory(path) => DeleteDirectoryBacked(a, path, quota, f)
    case Own(path, id) => DeleteExportBacked(a, path, id, f)
  }

  // ---- the controller ----

  /** The calls as the driver makes them, one array write after another. */
  class Controller {
    var state: Array

    constructor (a: Array)
      ensures state == a
    {
      state := a;
    }

    method GetExportWithPathAndZone(path: string, zone: string) returns (found: Option<int>)
      ensures ExportQuery(state, path, zone, found)
    {
      found := None;
      if id :| id in state.exports && Serves(state.exports[id], path, zone) { found := Some(id); }
    }

    method GetQuotaByPath(path: string) returns (found: Option<string>)
      ensures QuotaQuery(state, path, found)
    {
      found := None;
      if id :| id in state.quotas && state.quotas[id].path == path { found := Some(id); }
    }

    /** Up to three attempts. */
    method CreateQuotaWithRetries(path: string, r: Request, f: Fates) returns (quotaID: Option<string>)
      modifies this
      ensures match WithQuota(old(state), path, r, f) {
                case None => quotaID.None? && state == old(state)
                case Some((b, id)) => state == b && quotaID == Some(id)
              }
    {
      quotaID := None;
      var attempt := 1;
      while attempt <= MAX_QUOTA_RETRIES && quotaID.None?
        invariant 1 <= attempt <= MAX_QUOTA_RETRIES + 1
        invariant quotaID.None? ==> state == old(state) && forall k :: 1 <= k < attempt ==> !f.quota(k)
        invariant quotaID.None? && attempt > 1 ==> Thresholds(r).Some?
        invariant quotaID.Some? ==> WithQuota(old(state), path, r, f) == Some((state, quotaID.value))
      {
        var t := Thresholds(r);
        if t.None? {
          quotaID := Some("");
        } else if f.quota(attempt) {
          state := state.(quotas := state.quotas[f.quotaID := QuotaRecord(path, t.value)]);
          quotaID := Some(f.quotaID);
        }
        attempt := attempt + 1;
      }
    }

    /** The new directory and its quota, rolled back when the quota cannot be had. */
    method ProvisionVolume(r: Request, existing: bool, f: Fates) returns (quotaID: Option<string>)
      modifies this
      ensures (state, quotaID) == Provision(old(state), r, existing, f)
    {
      var path := VolumePathOf(r);
      if !existing {
        if !f.mkDir { return None; }
        state := state.(dirs := state.dirs + {path});
      }
      quotaID := CreateQuotaWithRetries(path, r, f);
      if quotaID.None? && f.rmDir { state := RemoveTree(state, path); }
    }

    /** Ten looks at the array for the export just made. */
    method AwaitExport(polls: nat) returns (visible: bool)
      ensures visible <==> polls < 10
    {
      visible := false;
      var i := 0;
      while i < MAX_RETRIES && !visible
        invariant 0 <= i <= MAX_RETRIES
        invariant visible ==> polls < MAX_RETRIES
        invariant !visible ==> i <= polls
      {
        visible := i >= polls;
        i := i + 1;
      }
    }

    method ExportVolume(r: Request, quotaID: string, f: Fates) returns (volID: Option<string>)
      modifies this
      ensures (state, volID) == ExportNew(old(state), r, quotaID, f)
    {
      var path := VolumePathOf(r);
      if f.exportID.None? {
        if quotaID != "" && f.clearQuota { state := ClearQuota(state, quotaID); }
        if f.rmDir { state := RemoveTree(state, path); }
        return None;
      }
      var id := f.exportID.value;
      state := state.(exports := state.exports[id := Export([path], r.zone, GetQuotaIDWithCSITag(quotaID), {})]);
      var visible := AwaitExport(f.polls);
      if !visible { return None; }
      if f.addClient {
        var e := state.exports[id].(clients := {DUMMY_CLIENT});
        assert state.exports[id := e] == old(state).exports[id := e];
        state := state.(exports := state.exports[id := e]);
      }
      var tokens := Split(state.exports[id].paths[0], SLASH);
      volID := Some(GetNormalizedVolumeID(VolumeId(tokens[|tokens| - 1], id, r.zone, r.cluster)));
    }

    method CreateExportBackedVolume(r: Request, f: Fates) returns (volID: Option<string>, ghost found: Option<int>)
      requires r.mode.ExportBacked?
      modifies this
      ensures ExportQuery(old(state), VolumePathOf(r), r.zone, found)
      ensures (state, volID) == CreateExportBacked(old(state), r, found, f)
    {
      var path := VolumePathOf(r);
      var exists' := path in state.dirs;
      var e := GetExportWithPathAndZone(path, r.zone);
      found := e;
      if exists' && e.None? { return None, found; }
      if e.Some? {
        if exists' {
          if r.quotaEnabled && TaggedHardLimit(state, state.exports[e.value]) != Some(r.size) { return None, found; }
          return Some(GetNormalizedVolumeID(VolumeId(r.name, e.value, state.exports[e.value].zone, r.cluster))), found;
        }
        if !f.unexport { return None, found; }
        state := state.(exports := state.exports - {e.value});
      }
      var quotaID := ProvisionVolume(r, false, f);
      if quotaID.None? { return None, found; }
      volID := ExportVolume(r, quotaID.value, f);
    }

    method CreateDirectoryBackedVolume(r: Request, f: Fates)
      returns (volID: Option<string>, ghost found: Option<int>, ghost quota: Option<string>)
      requires r.mode.DirectoryBacked?
      modifies this
      ensures ExportQuery(old(state), r.mode.shared, r.zone, found) && QuotaQuery(old(state), VolumePathOf(r), quota)
      ensures (state, volID) == CreateDirectoryBacked(old(state), r, found, quota, f)
    {
      var path := VolumePathOf(r);
      var e := GetExportWithPathAndZone(r.mode.shared, r.zone);
      var q := GetQuotaByPath(path);
      found, quota := e, q;
      if !SharedPathOk(r.mode.shared) || e.None? { return None, found, quota; }
      volID := Some(GetDirectoryBackedVolumeID(VolumeId(r.name, e.value, r.zone, r.cluster)));
      var exists' := path in state.dirs;
      if exists' {
        if q.Some? {
          if state.quotas[q.value].thresholds.hard != r.size { volID := None; }
          return;
        }
        if SubDirectoryCount(state, path) > IGNORE_DOT_AND_DOT_DOT { return None, found, quota; }
      }
      var quotaID := ProvisionVolume(r, exists', f);
      if quotaID.None? { volID := None; }
    }

    method RemoveVolumeDirectory(path: string, ok: bool) returns (result: DeleteResult)
      modifies this
      ensures (state, result) == RemoveDirectory(old(state), path, ok)
    {
      result := Deleted;
      if path in state.dirs {
        if !ok { return Refused; }
        state := RemoveTree(state, path);
      }
    }

    method DeleteExportBackedVolume(path: string, id: int, f: DeleteFates) returns (result: DeleteResult)
      requires id in state.exports
      modifies this
      ensures (state, result) == DeleteExportBacked(old(state), path, id, f)
    {
      var e := state.exports[id];
      var q := GetQuotaIDFromDescription(e.description);
      if q != "" {
        if q in state.quotas && !f.clearQuota { return Refused; }
        state := ClearQuota(state, q);
      }
      var es := ExportsOf(state, path, e.zone);
      if es == {id} {
        if !f.unexport { return Refused; }
        state := state.(exports := state.exports - {id});
      } else if |es| > 1 {
        return Refused;
      }
      result := RemoveVolumeDirectory(path, f.rmDir);
    }

    method DeleteDirectoryBackedVolume(path: string, f: DeleteFates)
      returns (result: DeleteResult, ghost quota: Option<string>)
      modifies this
      ensures QuotaQuery(old(state), path, quota)
      ensures (state, result) == DeleteDirectoryBacked(old(state), path, quota, f)
    {
      var q := GetQuotaByPath(path);
      quota := q;
      if q.Some? {
        if !f.clearQuota { return Refused, quota; }
        state := ClearQuota(state, q.value);
      }
      result := RemoveVolumeDirectory(path, f.rmDir);
    }

    method DeleteVolumeByID(volID: string, f: DeleteFates) returns (result: DeleteResult, ghost quota: Option<string>)
      modifies this
      ensures Resolve(old(state), volID).SubDirectory? ==>
                QuotaQuery(old(state), Resolve(old(state), volID).path, quota)
      ensures (state, result) == DeleteVolume(old(state), volID, quota, f)
    {
      quota := None;
      match Resolve(state, volID)
      case Nothing => result := Deleted;
      case WithoutPath => result := Refused;
      case OfSnapshot => result := SnapshotVolume;
      case SubDirectory(path) => result, quota := DeleteDirectoryBackedVolume(path, f);
      case Own(path, id) => result := DeleteExportBackedVolume(path, id, f);
    }
  }
}
