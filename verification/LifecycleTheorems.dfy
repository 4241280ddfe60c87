/** What CreateVolume and DeleteVolume promise together. */
module LifecycleTheorems {
  import opened Strings
  import opened Paths
  import opened Identifiers
  import opened QuotaTag
  import opened VolumeLifecycle
  import QuotaThresholds
  import SnapshotPaths

  /** A request whose parts survive being put into a volume ID and a path; its size has been validated. */
  ghost predicate GoodRequest(r: Request) {
    && Plain(r.name) && IdSafe(r.name) && IdSafe(r.zone) && r.size > 0
    && !SnapshotPaths.IsROVolumeFromSnapshot(VolumePathOf(r), r.zone)
    && (r.mode.ExportBacked? ==> Rooted(r.mode.isiPath) && !Contains(r.cluster, VOLUME_ID_SEPARATOR))
    && (r.mode.DirectoryBacked? ==> SharedPathOk(r.mode.shared) && IdSafe(r.cluster))
  }

  /** Nothing on the array belongs to the volume yet, and new identifiers are unused. */
  ghost predicate FreshVolume(a: Array, r: Request, f: Fates) {
    var path := VolumePathOf(r);
    && (forall d :: d in a.dirs ==> !Below(d, path))
    && (r.mode.ExportBacked? ==> forall id :: id in a.exports ==> !Serves(a.exports[id], path, r.zone))
    && (r.mode.DirectoryBacked? ==> forall id :: id in a.quotas ==> a.quotas[id].path != path)
    && f.quotaID !in a.quotas && f.quotaID != "" && '\n' !in f.quotaID
    && (f.exportID.Some? ==> f.exportID.value !in a.exports && IsInt64(f.exportID.value))
  }

  ghost predicate AllSucceed(r: Request, f: Fates) {
    f.mkDir && (Thresholds(r).Some? ==> QuotaAttempted(f)) && f.exportID.Some? && f.polls < MAX_RETRIES
  }

  const DELETE_ALL := DeleteFates(true, true, true)

  /** The array after a successful creation of an export-backed volume. */
  function Created(a: Array, r: Request, f: Fates): Array
    requires f.exportID.Some?
  {
    var path := VolumePathOf(r);
    var t := Thresholds(r);
    var tag := if t.Some? then GetQuotaIDWithCSITag(f.quotaID) else "";
    Array(a.dirs + {path},
          if t.Some? then a.quotas[f.quotaID := QuotaRecord(path, t.value)] else a.quotas,
          a.exports[f.exportID.value := Export([path], r.zone, tag, if f.addClient then {DUMMY_CLIENT} else {})])
  }

  lemma LastTokenIsName(r: Request)
    requires GoodRequest(r) && r.mode.ExportBacked?
    ensures var t := Split(VolumePathOf(r), SLASH); t[|t| - 1] == r.name
  {
    PathForVolume(r.mode.isiPath, r.name);
    SplitAbs(BaseComps(r.mode.isiPath) + [r.name]);
  }

  lemma ExportNewSucceeds(c: Array, r: Request, quotaID: string, f: Fates)
    requires GoodRequest(r) && r.mode.ExportBacked? && f.exportID.Some? && f.polls < MAX_RETRIES
    ensures ExportNew(c, r, quotaID, f)
            == (c.(exports := c.exports[f.exportID.value :=
                  Export([VolumePathOf(r)], r.zone, GetQuotaIDWithCSITag(quotaID),
                         if f.addClient then {DUMMY_CLIENT} else {})]),
                Some(GetNormalizedVolumeID(VolumeId(r.name, f.exportID.value, r.zone, r.cluster))))
  {
    LastTokenIsName(r);
  }

  lemma CreateExportBackedSucceeds(a: Array, r: Request, f: Fates)
    requires GoodRequest(r) && r.mode.ExportBacked? && FreshVolume(a, r, f) && AllSucceed(r, f)
    ensures CreateExportBacked(a, r, None, f)
            == (Created(a, r, f), Some(GetNormalizedVolumeID(VolumeId(r.name, f.exportID.value, r.zone, r.cluster))))
  {
    assert VolumePathOf(r) !in a.dirs by { assert Below(VolumePathOf(r), VolumePathOf(r)); }
    var (c, quotaID) := Provision(a, r, false, f);
    ExportNewSucceeds(c, r, quotaID.value, f);
  }

  lemma RemoveAddedDirectory(a: Array, path: string)
    requires forall d :: d in a.dirs ==> !Below(d, path)
    ensures RemoveTree(a.(dirs := a.dirs + {path}), path) == a
  {
    assert Below(path, path);
    assert RemoveTree(a.(dirs := a.dirs + {path}), path).dirs == a.dirs;
  }

  lemma ExportsOfCreated(a: Array, r: Request, f: Fates)
    requires r.mode.ExportBacked? && FreshVolume(a, r, f) && f.exportID.Some?
    ensures ExportsOf(Created(a, r, f), VolumePathOf(r), r.zone) == {f.exportID.value}
    ensures Created(a, r, f).exports - {f.exportID.value} == a.exports
  {
    var b, path, id := Created(a, r, f), VolumePathOf(r), f.exportID.value;
    assert Serves(b.exports[id], path, r.zone) by { assert path in [path]; }
    forall k | k in b.exports && k != id ensures !Serves(b.exports[k], path, r.zone) {
      assert b.exports[k] == a.exports[k];
    }
  }

  /** The export-backed branch of deletion undoes exactly what creation did. */
  lemma DeleteExportBackedUndoes(a: Array, r: Request, f: Fates)
    requires GoodRequest(r) && r.mode.ExportBacked? && FreshVolume(a, r, f) && AllSucceed(r, f)
    ensures DeleteExportBacked(Created(a, r, f), VolumePathOf(r), f.exportID.value, DELETE_ALL) == (a, Deleted)
  {
    var b, path, id := Created(a, r, f), VolumePathOf(r), f.exportID.value;
    QuotaTagRoundTrip(f.quotaID);
    var q := GetQuotaIDFromDescription(b.exports[id].description);
    assert q == if Thresholds(r).Some? then f.quotaID else "";
    var c := if q != "" then ClearQuota(b, q) else b;
    assert c.quotas == a.quotas;
    ExportsOfCreated(a, r, f);
    assert ExportsOf(c, path, r.zone) == ExportsOf(b, path, r.zone);
    RemoveAddedDirectory(a, path);
    assert path in c.dirs;
  }

  /** The path of an export-backed volume is rebuilt from its export path and its name. */
  lemma OwnPathIsRebuilt(r: Request)
    requires GoodRequest(r) && r.mode.ExportBacked?
    ensures VolumePathOf(r) != ""
    ensures GetPathForVolume(GetIsiPathFromExportPath(VolumePathOf(r)), r.name) == VolumePathOf(r)
  {
    var base := BaseComps(r.mode.isiPath);
    PathForVolume(r.mode.isiPath, r.name);
    assert (base + [r.name])[..|base|] == base;
    assert AllPlain(base);
    ExportPathRoundTrip(base, r.name);
    PathForVolume(GetIsiPathFromExportPath(VolumePathOf(r)), r.name);
  }

  lemma CreatedResolvesToOwn(a: Array, r: Request, f: Fates)
    requires GoodRequest(r) && r.mode.ExportBacked? && FreshVolume(a, r, f) && AllSucceed(r, f)
    ensures Resolve(Created(a, r, f), GetNormalizedVolumeID(VolumeId(r.name, f.exportID.value, r.zone, r.cluster)))
            == Own(VolumePathOf(r), f.exportID.value)
  {
    VolumeIdRoundTrip(VolumeId(r.name, f.exportID.value, r.zone, r.cluster));
    OwnPathIsRebuilt(r);
  }

  /** Create then delete conserves the array, export-backed: with every write answered, deleting the volume
      ID that CreateVolume returned restores directories, quotas and exports exactly. The ID, the path and
      the quota tag are really built and parsed on the way. */
  lemma CreateThenDeleteExportBacked(a: Array, r: Request, f: Fates, found: Option<int>, quota: Option<string>)
    requires GoodRequest(r) && r.mode.ExportBacked? && FreshVolume(a, r, f) && AllSucceed(r, f)
    requires ExportQuery(a, VolumePathOf(r), r.zone, found)
    ensures var (b, volID) := CreateExportBacked(a, r, found, f);
            volID.Some? && DeleteVolume(b, volID.value, quota, DELETE_ALL) == (a, Deleted)
  {
    assert found == None;
    CreateExportBackedSucceeds(a, r, f);
    CreatedResolvesToOwn(a, r, f);
    DeleteExportBackedUndoes(a, r, f);
  }

  // ---- directory-backed ----

  /** The array after a successful creation of a directory-backed volume: the exports are untouched. */
  function CreatedDirectory(a: Array, r: Request, f: Fates): Array
    requires Thresholds(r).Some?
  {
    var path := VolumePathOf(r);
    Array(a.dirs + {path}, a.quotas[f.quotaID := QuotaRecord(path, Thresholds(r).value)], a.exports)
  }

  lemma SharedJoin(shared: string, name: string)
    requires SharedPathOk(shared) && Plain(name)
    ensures JoinPath([shared, name]) == GetPathForVolume(shared, name) == Abs(Comps(shared) + [name])
    ensures AllPlain(Comps(shared) + [name])
  {
    PathForVolume(shared, name);
    JoinTwo(shared, name);
    assert shared[0] == '/';
    CleanOneMore(shared, name);
  }

  lemma CreateDirectoryBackedSucceeds(a: Array, r: Request, f: Fates, id: int, quota: Option<string>)
    requires GoodRequest(r) && r.mode.DirectoryBacked? && FreshVolume(a, r, f) && f.mkDir && QuotaAttempted(f)
    requires QuotaQuery(a, VolumePathOf(r), quota)
    ensures CreateDirectoryBacked(a, r, Some(id), quota, f)
            == (CreatedDirectory(a, r, f), Some(GetDirectoryBackedVolumeID(VolumeId(r.name, id, r.zone, r.cluster))))
  {
    assert VolumePathOf(r) !in a.dirs by { assert Below(VolumePathOf(r), VolumePathOf(r)); }
  }

  /** The mode token takes DeleteVolume to the directory-backed branch, below the export's first path. */
  lemma DeleteOfDirectoryBacked(b: Array, v: VolumeId, quota: Option<string>, f: DeleteFates)
    requires IdSafe(v.name) && IdSafe(v.zone) && IdSafe(v.cluster) && IsInt64(v.exportID)
    requires v.exportID in b.exports && b.exports[v.exportID].zone == v.zone
    requires b.exports[v.exportID].paths != [] && b.exports[v.exportID].paths[0] != ""
    requires !SnapshotPaths.IsROVolumeFromSnapshot(b.exports[v.exportID].paths[0], v.zone)
    ensures DeleteVolume(b, GetDirectoryBackedVolumeID(v), quota, f)
            == DeleteDirectoryBacked(b, GetPathForVolume(b.exports[v.exportID].paths[0], v.name), quota, f)
  {
    DirectoryVolumeIdRoundTrip(v);
  }

  /** Create then delete, directory-backed. Creation works below the shared path of the storage class,
      deletion below the first path of the shared export; the array is restored exactly when the two are
      the same directory, and the shared export is never touched. */
  lemma CreateThenDeleteDirectoryBacked(a: Array, r: Request, f: Fates, id: int, quota: Option<string>,
                                        later: Option<string>)
    requires GoodRequest(r) && r.mode.DirectoryBacked? && FreshVolume(a, r, f) && f.mkDir && QuotaAttempted(f)
    requires ExportQuery(a, r.mode.shared, r.zone, Some(id)) && IsInt64(id)
    requires Rooted(a.exports[id].paths[0]) && a.exports[id].paths[0] != ""
    requires !SnapshotPaths.IsROVolumeFromSnapshot(a.exports[id].paths[0], r.zone)
    requires QuotaQuery(a, VolumePathOf(r), quota)
    requires QuotaQuery(CreatedDirectory(a, r, f), GetPathForVolume(a.exports[id].paths[0], r.name), later)
    ensures var (b, volID) := CreateDirectoryBacked(a, r, Some(id), quota, f);
            && volID.Some? && b.exports == a.exports
            && var (c, result) := DeleteVolume(b, volID.value, later, DELETE_ALL);
            && result == Deleted && c.exports == a.exports
            && (c == a <==> Comps(a.exports[id].paths[0]) == Comps(r.mode.shared))
  {
    var first := a.exports[id].paths[0];
    CreateDirectoryBackedSucceeds(a, r, f, id, quota);
    var b := CreatedDirectory(a, r, f);
    DeleteOfDirectoryBacked(b, VolumeId(r.name, id, r.zone, r.cluster), later, DELETE_ALL);
    SameVolumePath(r, first);
    var other := GetPathForVolume(first, r.name);
    if other == VolumePathOf(r) {
      DeleteDirectoryBackedUndoes(a, r, f, later);
    } else {
      assert f.quotaID in DeleteDirectoryBacked(b, other, later, DELETE_ALL).0.quotas;
    }
  }

  lemma SameVolumePath(r: Request, first: string)
    requires GoodRequest(r) && r.mode.DirectoryBacked? && Rooted(first) && first != ""
    ensures GetPathForVolume(first, r.name) == VolumePathOf(r) <==> Comps(first) == Comps(r.mode.shared)
  {
    SharedJoin(r.mode.shared, r.name);
    PathForVolume(first, r.name);
    SamePathIffSameDirectory(Comps(first), Comps(r.mode.shared), r.name);
  }

  lemma SamePathIffSameDirectory(a: seq<string>, b: seq<string>, name: string)
    requires AllPlain(a + [name]) && AllPlain(b + [name])
    ensures Abs(a + [name]) == Abs(b + [name]) <==> a == b
  {
    CleanAbs(a + [name]);
    CleanAbs(b + [name]);
    assert (a + [name])[..|a|] == a && (b + [name])[..|b|] == b;
  }

  lemma DeleteDirectoryBackedUndoes(a: Array, r: Request, f: Fates, quota: Option<string>)
    requires GoodRequest(r) && r.mode.DirectoryBacked? && FreshVolume(a, r, f)
    requires QuotaQuery(CreatedDirectory(a, r, f), VolumePathOf(r), quota)
    ensures DeleteDirectoryBacked(CreatedDirectory(a, r, f), VolumePathOf(r), quota, DELETE_ALL) == (a, Deleted)
  {
    var b, path := CreatedDirectory(a, r, f), VolumePathOf(r);
    assert b.quotas[f.quotaID].path == path;
    assert quota == Some(f.quotaID);
    assert ClearQuota(b, f.quotaID).quotas == a.quotas;
    RemoveAddedDirectory(a, path);
    assert path in b.dirs;
  }

  // ---- failure ----

  /** Nothing is below a directory that does not exist, and a new quota has an unused identifier. */
  ghost predicate Settled(a: Array, r: Request, f: Fates) {
    && (VolumePathOf(r) !in a.dirs ==> forall d :: d in a.dirs ==> !Below(d, VolumePathOf(r)))
    && f.quotaID !in a.quotas && f.quotaID != ""
  }

  /** Failed create is all-or-nothing, export-backed: when the calls that take things back are answered, a
      failed creation leaves the array as it was, except that an export found without its directory is gone. */
  lemma FailedExportBackedCreateRestores(a: Array, r: Request, f: Fates, found: Option<int>)
    requires GoodRequest(r) && r.mode.ExportBacked? && Settled(a, r, f)
    requires f.unexport && f.clearQuota && f.rmDir && f.polls < MAX_RETRIES
    requires ExportQuery(a, VolumePathOf(r), r.zone, found)
    ensures var (b, volID) := CreateExportBacked(a, r, found, f);
            volID.None? ==> (b == a <==> found.None? || VolumePathOf(r) in a.dirs)
                            && b == a.(exports := b.exports)
  {
    var path := VolumePathOf(r);
    if path !in a.dirs {
      var b := if found.Some? then a.(exports := a.exports - {found.value}) else a;
      RemoveAddedDirectory(b, path);
      if f.mkDir && f.exportID.None? { ExportFailureUndone(b, r, f); }
    }
  }

  lemma QuotaTakenBack(b: Array, id: string, q: QuotaRecord)
    requires id !in b.quotas
    ensures ClearQuota(b.(quotas := b.quotas[id := q]), id) == b
  {
    assert b.quotas[id := q] - {id} == b.quotas;
  }

  lemma ExportFailureUndone(a: Array, r: Request, f: Fates)
    requires Settled(a, r, f) && VolumePathOf(r) !in a.dirs
    requires f.clearQuota && f.rmDir && f.mkDir && f.exportID.None?
    ensures var (c, quotaID) := Provision(a, r, false, f);
            quotaID.Some? ==> ExportNew(c, r, quotaID.value, f) == (a, None)
  {
    var path := VolumePathOf(r);
    RemoveAddedDirectory(a, path);
    var b := a.(dirs := a.dirs + {path});
    var (c, quotaID) := Provision(a, r, false, f);
    if quotaID.Some? {
      var d := if quotaID.value != "" then ClearQuota(c, quotaID.value) else c;
      if Thresholds(r).Some? { QuotaTakenBack(b, f.quotaID, QuotaRecord(path, Thresholds(r).value)); }
      assert d == b;
    }
  }

  /** The directory that an earlier call, or someone else, left without a quota and without subdirectories. */
  ghost predicate Adopted(a: Array, r: Request, found: Option<int>, quota: Option<string>) {
    found.Some? && quota.None? && VolumePathOf(r) in a.dirs
    && SubDirectoryCount(a, VolumePathOf(r)) <= IGNORE_DOT_AND_DOT_DOT
  }

  /** Failed create, directory-backed. The rollback does not ask who made the directory: a failed creation
      restores the array exactly when it had not adopted an existing directory; that one is deleted. */
  lemma FailedDirectoryBackedCreateRestores(a: Array, r: Request, f: Fates, found: Option<int>, quota: Option<string>)
    requires GoodRequest(r) && r.mode.DirectoryBacked? && Settled(a, r, f) && f.rmDir
    requires QuotaQuery(a, VolumePathOf(r), quota)
    ensures var (b, volID) := CreateDirectoryBacked(a, r, found, quota, f);
            volID.None? ==> (b == a <==> !Adopted(a, r, found, quota))
                            && (Adopted(a, r, found, quota) ==> VolumePathOf(r) !in b.dirs)
  {
    var path := VolumePathOf(r);
    assert Below(path, path);
    if path !in a.dirs {
      RemoveAddedDirectory(a, path);
    } else {
      assert path !in RemoveTree(a, path).dirs;
    }
  }

  // ---- idempotency ----

  lemma RepeatAfterFreshCreate(a: Array, r: Request, f: Fates, g: Fates, again: Option<int>, size: int)
    requires GoodRequest(r) && r.mode.ExportBacked? && FreshVolume(a, r, f) && AllSucceed(r, f)
    requires ExportQuery(Created(a, r, f), VolumePathOf(r), r.zone, again)
    ensures var volID := Some(GetNormalizedVolumeID(VolumeId(r.name, f.exportID.value, r.zone, r.cluster)));
            var b := Created(a, r, f);
            && CreateExportBacked(b, r, again, g) == (b, volID)
            && (r.quotaEnabled && size != r.size ==> CreateExportBacked(b, r.(size := size), again, g) == (b, None))
  {
    OnlyTheNewExport(a, r, f, again);
    QuotaTagRoundTrip(f.quotaID);
  }

  ghost predicate OneExport(a: Array, path: string, zone: string) {
    forall i, j ::
      i in a.exports && j in a.exports && Serves(a.exports[i], path, zone) && Serves(a.exports[j], path, zone)
      ==> i == j
  }

  /** CreateVolume is idempotent, export-backed: after any successful call the same request returns the same
      volume ID and leaves the array alone, whatever its writes would have done; with quotas enabled another
      size is refused and the array left alone. */
  lemma CreateIsIdempotent(a: Array, r: Request, f: Fates, g: Fates, found: Option<int>, again: Option<int>, size: int)
    requires GoodRequest(r) && r.mode.ExportBacked? && Settled(a, r, f) && '\n' !in f.quotaID
    requires OneExport(a, VolumePathOf(r), r.zone) && ExportQuery(a, VolumePathOf(r), r.zone, found)
    requires f.exportID.Some? ==> f.exportID.value !in a.exports && IsInt64(f.exportID.value)
    requires CreateExportBacked(a, r, found, f).1.Some?
    requires ExportQuery(CreateExportBacked(a, r, found, f).0, VolumePathOf(r), r.zone, again)
    ensures var (b, volID) := CreateExportBacked(a, r, found, f);
            && CreateExportBacked(b, r, again, g) == (b, volID)
            && (r.quotaEnabled && size != r.size ==> CreateExportBacked(b, r.(size := size), again, g) == (b, None))
  {
    if VolumePathOf(r) in a.dirs {
      assert again == found;
    } else {
      var c := if found.Some? then a.(exports := a.exports - {found.value}) else a;
      LeftoverGone(a, c, r, f, found);
      CreateExportBackedSucceeds(c, r, f);
      assert CreateExportBacked(a, r, found, f) == CreateExportBacked(c, r, None, f);
      RepeatAfterFreshCreate(c, r, f, g, again, size);
    }
  }

  /** Once the export left over without its directory is removed, the volume is fresh. */
  lemma LeftoverGone(a: Array, c: Array, r: Request, f: Fates, found: Option<int>)
    requires r.mode.ExportBacked? && Settled(a, r, f) && '\n' !in f.quotaID && VolumePathOf(r) !in a.dirs
    requires OneExport(a, VolumePathOf(r), r.zone) && ExportQuery(a, VolumePathOf(r), r.zone, found)
    requires c == if found.Some? then a.(exports := a.exports - {found.value}) else a
    requires CreateExportBacked(a, r, found, f).1.Some?
    requires f.exportID.Some? ==> f.exportID.value !in a.exports && IsInt64(f.exportID.value)
    ensures FreshVolume(c, r, f) && AllSucceed(r, f)
  {
    forall id | id in c.exports ensures !Serves(c.exports[id], VolumePathOf(r), r.zone) {
      assert c.exports[id] == a.exports[id];
    }
  }

  ghost predicate OneQuota(a: Array, path: string) {
    forall i, j :: i in a.quotas && j in a.quotas && a.quotas[i].path == path && a.quotas[j].path == path ==> i == j
  }

  /** The same for directory-backed volumes, whose quota is always on: after any success, on a new directory,
      on an adopted one or on one that was complete. A quota is on a directory that exists. */
  lemma DirectoryBackedCreateIsIdempotent(a: Array, r: Request, f: Fates, g: Fates, found: Option<int>,
                                          quota: Option<string>, again: Option<string>, size: int)
    requires GoodRequest(r) && r.mode.DirectoryBacked? && Settled(a, r, f)
    requires OneQuota(a, VolumePathOf(r)) && (quota.Some? ==> VolumePathOf(r) in a.dirs)
    requires QuotaQuery(a, VolumePathOf(r), quota) && CreateDirectoryBacked(a, r, found, quota, f).1.Some?
    requires QuotaQuery(CreateDirectoryBacked(a, r, found, quota, f).0, VolumePathOf(r), again)
    ensures var (b, volID) := CreateDirectoryBacked(a, r, found, quota, f);
            && CreateDirectoryBacked(b, r, found, again, g) == (b, volID)
            && (size != r.size ==> CreateDirectoryBacked(b, r.(size := size), found, again, g) == (b, None))
  {
    var b, path := CreateDirectoryBacked(a, r, found, quota, f).0, VolumePathOf(r);
    if quota.Some? {
      assert again == quota;
    } else {
      assert b.quotas == a.quotas[f.quotaID := QuotaRecord(path, Thresholds(r).value)];
      assert b.quotas[f.quotaID].path == path && path in b.dirs;
      assert again == Some(f.quotaID);
    }
  }

  lemma OnlyTheNewExport(a: Array, r: Request, f: Fates, again: Option<int>)
    requires r.mode.ExportBacked? && FreshVolume(a, r, f) && f.exportID.Some?
    requires ExportQuery(Created(a, r, f), VolumePathOf(r), r.zone, again)
    ensures again == f.exportID
  {
    var b, id := Created(a, r, f), f.exportID.value;
    assert Serves(b.exports[id], VolumePathOf(r), r.zone) by { assert VolumePathOf(r) in [VolumePathOf(r)]; }
  }

  /** An export that stays invisible for all ten polls makes the call fail without rollback; the retry finds
      it and completes with the ID the first call would have given. */
  lemma RetryCompletesInvisibleExport(a: Array, r: Request, f: Fates, g: Fates, found: Option<int>, again: Option<int>)
    requires GoodRequest(r) && r.mode.ExportBacked? && FreshVolume(a, r, f)
    requires f.mkDir && (Thresholds(r).Some? ==> QuotaAttempted(f)) && f.exportID.Some? && f.polls >= MAX_RETRIES
    requires ExportQuery(a, VolumePathOf(r), r.zone, found)
    requires ExportQuery(CreateExportBacked(a, r, found, f).0, VolumePathOf(r), r.zone, again)
    ensures var (b, volID) := CreateExportBacked(a, r, found, f);
            && volID.None?
            && CreateExportBacked(b, r, again, g)
               == (b, Some(GetNormalizedVolumeID(VolumeId(r.name, f.exportID.value, r.zone, r.cluster))))
  {
    assert found == None;
    assert VolumePathOf(r) !in a.dirs by { assert Below(VolumePathOf(r), VolumePathOf(r)); }
    var quiet := f.(addClient := false);
    assert CreateExportBacked(a, r, found, f).0 == Created(a, r, quiet);
    OnlyTheNewExport(a, r, quiet, again);
    QuotaTagRoundTrip(f.quotaID);
  }

  /** The identifiers the driver makes: no mode token, or the one of directory-backed volumes. */
  ghost predicate DriverMade(volID: string) {
    match ParseVolumeIDWithMode(volID)
    case None => true
    case Some((_, mode)) => mode == "" || mode == PROVISIONING_MODE_DIRECTORY
  }

  lemma OwnPathIsExported(a: Array, volID: string)
    requires DriverMade(volID) && Resolve(a, volID).Own?
    ensures var v := Resolve(a, volID); Serves(a.exports[v.id], v.path, a.exports[v.id].zone)
  {
  }

  lemma OneOrMore(es: set<int>, id: int)
    requires id in es
    ensures es == {id} || |es| > 1
  {
    var rest := es - {id};
    assert es == rest + {id} && |es| == |rest| + 1;
  }

  lemma OwnDeletedMeansUnexported(a: Array, path: string, id: int, f: DeleteFates)
    requires id in a.exports && Serves(a.exports[id], path, a.exports[id].zone)
    requires DeleteExportBacked(a, path, id, f).1 == Deleted
    ensures id !in DeleteExportBacked(a, path, id, f).0.exports
  {
    var q := GetQuotaIDFromDescription(a.exports[id].description);
    var b := if q != "" then ClearQuota(a, q) else a;
    var es := ExportsOf(b, path, a.exports[id].zone);
    assert id in es;
    OneOrMore(es, id);
  }

  lemma SubDirectoryDeletedMeansGone(a: Array, path: string, quota: Option<string>, f: DeleteFates,
                                     again: Option<string>)
    requires OneQuota(a, path) && QuotaQuery(a, path, quota) && DeleteDirectoryBacked(a, path, quota, f).1 == Deleted
    requires QuotaQuery(DeleteDirectoryBacked(a, path, quota, f).0, path, again)
    ensures var b := DeleteDirectoryBacked(a, path, quota, f).0;
            again.None? && path !in b.dirs && b.exports == a.exports
  {
    assert Below(path, path);
  }

  /** DeleteVolume is idempotent: once acknowledged, the same call changes nothing and is acknowledged again,
      whatever its writes would have done. */
  lemma DeleteIsIdempotent(a: Array, volID: string, quota: Option<string>, f: DeleteFates,
                           again: Option<string>, g: DeleteFates)
    requires DriverMade(volID) && DeleteVolume(a, volID, quota, f).1 == Deleted
    requires Resolve(a, volID).SubDirectory? ==>
               var path := Resolve(a, volID).path;
               && OneQuota(a, path) && QuotaQuery(a, path, quota)
               && QuotaQuery(DeleteVolume(a, volID, quota, f).0, path, again)
    ensures var b := DeleteVolume(a, volID, quota, f).0;
            DeleteVolume(b, volID, again, g) == (b, Deleted)
  {
    match Resolve(a, volID)
    case SubDirectory(path) => SubDirectoryDeletedMeansGone(a, path, quota, f, again);
    case Own(path, id) =>
      OwnPathIsExported(a, volID);
      OwnDeletedMeansUnexported(a, path, id, f);
    case _ =>
  }

  // ---- refusals ----

  /** A refused deletion keeps every directory. It keeps every export too, unless the volume's only export was
      removed and its directory could not be; and it clears no quota but the volume's own. */
  lemma RefusedDeleteKeeps(a: Array, volID: string, quota: Option<string>, f: DeleteFates)
    requires DeleteVolume(a, volID, quota, f).1 == Refused
    ensures var b, v := DeleteVolume(a, volID, quota, f).0, Resolve(a, volID);
            && b.dirs == a.dirs
            && (b.exports == a.exports
                || (v.Own? && f.unexport && !f.rmDir && v.path in a.dirs && b.exports == a.exports - {v.id}
                    && ExportsOf(a, v.path, a.exports[v.id].zone) == {v.id}))
            && (b.quotas == a.quotas || (v.SubDirectory? && quota.Some? && b.quotas == a.quotas - {quota.value})
                || (v.Own? && b.quotas == a.quotas - {GetQuotaIDFromDescription(a.exports[v.id].description)}))
  {
    if Resolve(a, volID).Own? { SameExports(a, Resolve(a, volID).path, Resolve(a, volID).id); }
  }

  /** The quota goes first: if it cannot be cleared, nothing else is touched and the deletion is refused. */
  lemma UnclearedQuotaStopsDelete(a: Array, volID: string, quota: Option<string>, f: DeleteFates)
    requires !f.clearQuota
    requires var v := Resolve(a, volID);
             || (v.SubDirectory? && quota.Some?)
             || (v.Own? && var q := GetQuotaIDFromDescription(a.exports[v.id].description); q != "" && q in a.quotas)
    ensures DeleteVolume(a, volID, quota, f) == (a, Refused)
  {
  }

  /** An acknowledged deletion of a volume that was there has removed its directory with all that is below it, its
      quota and, if it had one of its own, its export. */
  lemma AcknowledgedMeansGone(a: Array, volID: string, quota: Option<string>, f: DeleteFates)
    requires DriverMade(volID) && DeleteVolume(a, volID, quota, f).1 == Deleted
    ensures var b, v := DeleteVolume(a, volID, quota, f).0, Resolve(a, volID);
            && (v.SubDirectory? ==>
                  && v.path !in b.dirs && (quota.Some? ==> quota.value !in b.quotas) && b.exports == a.exports
                  && (v.path in a.dirs ==> forall d :: d in b.dirs <==> d in a.dirs && !Below(d, v.path)))
            && (v.Own? ==>
                  && v.path !in b.dirs && b.exports == a.exports - {v.id}
                  && (v.path in a.dirs ==> forall d :: d in b.dirs <==> d in a.dirs && !Below(d, v.path))
                  && var q := GetQuotaIDFromDescription(a.exports[v.id].description); q != "" ==> q !in b.quotas)
  {
    var v := Resolve(a, volID);
    if v.SubDirectory? || v.Own? { assert Below(v.path, v.path); }
    if v.Own? {
      OwnPathIsExported(a, volID);
      OwnDeletedMeansUnexported(a, v.path, v.id, f);
    }
  }

  /** Clearing the quota does not change which exports serve the path. */
  lemma SameExports(a: Array, path: string, id: int)
    requires id in a.exports
    ensures forall q :: ExportsOf(ClearQuota(a, q), path, a.exports[id].zone) == ExportsOf(a, path, a.exports[id].zone)
  {
  }

  /** A volume whose path has more than one export is never deleted. */
  lemma SharedPathIsNotDeleted(a: Array, volID: string, quota: Option<string>, f: DeleteFates)
    requires var v := Resolve(a, volID); v.Own? && |ExportsOf(a, v.path, a.exports[v.id].zone)| > 1
    ensures var (b, result) := DeleteVolume(a, volID, quota, f);
            result == Refused && b.dirs == a.dirs && b.exports == a.exports
  {
    SameExports(a, Resolve(a, volID).path, Resolve(a, volID).id);
  }

  /** An ID that does not parse, or whose export is not there in its zone, is acknowledged and nothing happens. */
  lemma UnknownVolumeIsDeleted(a: Array, volID: string, quota: Option<string>, f: DeleteFates)
    requires var p := ParseNormalizedVolumeID(volID);
             p.None? || p.value.exportID !in a.exports || a.exports[p.value.exportID].zone != p.value.zone
    ensures DeleteVolume(a, volID, quota, f) == (a, Deleted)
  {
  }

  /** A shared path that is not absolute or leaves its directory is refused, whatever the array holds. */
  lemma BadSharedPathIsRefused(a: Array, r: Request, found: Option<int>, quota: Option<string>, f: Fates)
    requires r.mode.DirectoryBacked? && QuotaQuery(a, VolumePathOf(r), quota)
    requires !HasPrefix(r.mode.shared, "/") || Contains(r.mode.shared, "..")
    ensures CreateDirectoryBacked(a, r, found, quota, f) == (a, None)
  {
    NotContained(r.mode.shared, "..");
  }

  /** Exports of the same path in other access zones do not count. */
  lemma ZonesAreSeparate(a: Array, path: string, zone: string)
    ensures ExportQuery(a, path, zone, None)
            <==> forall id :: id in a.exports && a.exports[id].zone == zone ==> path !in a.exports[id].paths
  {
  }

  /** The mode token decides alone: with one, a volume is a subdirectory of a shared export exactly when it says
      "directory", whatever the paths look like. */
  lemma ModeTokenDecides(volID: string, exportPath: string, name: string)
    requires exportPath != "" && ParseVolumeIDWithMode(volID).Some? && ParseVolumeIDWithMode(volID).value.1 != ""
    ensures IsDirectoryBacked(volID, exportPath, name) <==> ParseVolumeIDWithMode(volID).value.1 == "directory"
  {
  }

  /** An export without a path cannot be deleted through. */
  lemma ExportWithoutPathIsRefused(a: Array, volID: string, quota: Option<string>, f: DeleteFates)
    requires var p := ParseNormalizedVolumeID(volID);
             && p.Some? && p.value.exportID in a.exports && a.exports[p.value.exportID].zone == p.value.zone
             && (a.exports[p.value.exportID].paths == [] || a.exports[p.value.exportID].paths[0] == "")
    ensures DeleteVolume(a, volID, quota, f) == (a, Refused)
  {
  }

  /** The link count says that a directory has no subdirectory exactly when no path is one name longer. */
  lemma NoSubdirectoryIff(a: Array, p: string)
    ensures SubDirectoryCount(a, p) <= 2 <==> forall name :: '/' !in name ==> p + "/" + name !in a.dirs
  {
    var kids := set d | d in a.dirs && IsChild(d, p);
    if name: string :| '/' !in name && p + "/" + name in a.dirs {
      ChildPath(p, name);
      assert p + "/" + name in kids;
    }
    if d :| d in kids {
      var name := d[|p| + 1..];
      assert d == p + "/" + name by { assert d[..|p| + 1] == p + "/"; }
    }
  }

  lemma ChildPath(p: string, name: string)
    requires '/' !in name
    ensures IsChild(p + "/" + name, p)
  {
    var d := p + "/" + name;
    assert d[..|p| + 1] == p + "/" && d[|p| + 1..] == name;
  }
}
