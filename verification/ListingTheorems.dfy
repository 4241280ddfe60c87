/** A volume that CreateVolume made appears in ListVolumes under the volume ID that CreateVolume returned. */
module ListingTheorems {
  import opened Strings
  import opened Paths
  import opened Identifiers
  import opened QuotaTag
  import opened VolumeLifecycle
  import opened LifecycleTheorems
  import L = ListVolumes

  /** The export as the listing call reports it. */
  ghost predicate Reports(e: Export, id: int, x: L.Export) {
    && x.id == id && x.zone == e.zone && x.description == e.description && x.paths == e.paths
    && (forall s :: s in x.clients <==> s in e.clients) && x.readOnly == [] && x.readWrite == [] && x.root == []
  }

  /** Entry `n` is the only export of `p`. */
  ghost predicate OnlyAt(exports: seq<Option<L.Export>>, n: nat, p: string) {
    forall m :: 0 <= m < |exports| && m != n ==> L.HitsOf(exports[m], p) == []
  }

  lemma {:induction false} GatherOnly(f: Option<L.Export> -> seq<L.Export>, exports: seq<Option<L.Export>>, n: nat,
                                      k: nat)
    requires n < |exports| && k <= |exports|
    requires forall m :: 0 <= m < |exports| && m != n ==> f(exports[m]) == []
    ensures L.Gather(f, exports, k) == if k <= n then [] else f(exports[n])
  {
    if k > 0 { GatherOnly(f, exports, n, k - 1); }
  }

  lemma MatchingOnly(exports: seq<Option<L.Export>>, n: nat, p: string)
    requires n < |exports| && OnlyAt(exports, n, p)
    ensures L.Matching(exports, |exports|, p) == L.HitsOf(exports[n], p)
  {
    GatherOnly(L.HitsAt(p), exports, n, |exports|);
  }

  lemma OwnHit(x: L.Export, p: string)
    requires x.paths == [p] && Clean(p) == p
    ensures L.HitsOf(Some(x), p) == [x]
  {
    var ps := L.CleanAll(x.paths);
    assert ps[0] == p;
    assert L.PathHits(x, ps, 0, p) == [];
    assert L.PathHits(x, ps, 1, p) == [x];
  }

  lemma FullPathIsVolumePath(c: L.Cluster, r: Request, child: L.Child)
    requires GoodRequest(r) && r.mode.ExportBacked? && child.name == Some(r.name)
    requires child.path.Some? && child.path.value != "" && child.path.value[0] == '/'
    requires Comps(child.path.value) == BaseComps(r.mode.isiPath)
    ensures L.FullPath(c, child) == VolumePathOf(r) && Clean(VolumePathOf(r)) == VolumePathOf(r)
  {
    PathForVolume(r.mode.isiPath, r.name);
    JoinTwo(child.path.value, r.name);
    CleanOneMore(child.path.value, r.name);
    CleanAbs(BaseComps(r.mode.isiPath) + [r.name]);
  }

  /** A directory reported without a path is looked for below the container. */
  lemma FullPathBelowContainer(c: L.Cluster, child: L.Child)
    requires child.name.Some? && Plain(child.name.value) && Rooted(c.container) && c.container != ""
    requires child.path.None? || child.path.value == ""
    ensures L.FullPath(c, child) == Abs(Comps(c.container) + [child.name.value])
  {
    CompsArePlain(c.container);
    CleanAbs(Comps(c.container));
    PathForVolume(Clean(c.container), child.name.value);
    CleanAbs(Comps(c.container) + [child.name.value]);
  }

  lemma MarksOfCreated(c: L.Cluster, a: Array, r: Request, f: Fates, x: L.Export)
    requires GoodRequest(r) && r.mode.ExportBacked? && FreshVolume(a, r, f) && AllSucceed(r, f)
    requires Reports(Created(a, r, f).exports[f.exportID.value], f.exportID.value, x)
    ensures L.IsCSIManaged(c, VolumePathOf(r), x)
            <==> Thresholds(r).Some? || f.addClient || c.headers(VolumePathOf(r)) * L.CSI_HEADERS != {}
  {
    QuotaTagRoundTrip(f.quotaID);
    L.DummyHostMeans(x);
  }

  lemma ExamineOne(c: L.Cluster, child: L.Child, p: string, x: L.Export)
    requires child.name.Some?
    ensures L.Examine(c, child, p, [x]) == if L.IsCSIManaged(c, p, x) then Some(L.EntryOf(c, child, p, x)) else None
  {
    assert [x][0] == x;
  }

  /** Listed exactly when the creation left a mark: a quota, the dummy client or the metadata headers; and
      then under the ID that CreateVolume returned. */
  lemma CreatedVolumeIsListed(c: L.Cluster, a: Array, r: Request, f: Fates, child: L.Child,
                              exports: seq<Option<L.Export>>, n: nat, x: L.Export)
    requires GoodRequest(r) && r.mode.ExportBacked? && FreshVolume(a, r, f) && AllSucceed(r, f)
    requires r.zone != "" && c.name == r.cluster
    requires n < |exports| && exports[n] == Some(x) && OnlyAt(exports, n, VolumePathOf(r))
    requires Reports(Created(a, r, f).exports[f.exportID.value], f.exportID.value, x)
    requires child.name == Some(r.name) && child.path.Some? && child.path.value != "" && child.path.value[0] == '/'
    requires Comps(child.path.value) == BaseComps(r.mode.isiPath)
    ensures var volID := CreateExportBacked(a, r, None, f).1;
            var listed := L.EntryFor(c, exports, child);
            && (listed.Some? <==> Thresholds(r).Some? || f.addClient
                                  || c.headers(VolumePathOf(r)) * L.CSI_HEADERS != {})
            && (listed.Some? ==> volID == Some(listed.value.volumeID))
  {
    CreateExportBackedSucceeds(a, r, f);
    FullPathIsVolumePath(c, r, child);
    MatchingOnly(exports, n, VolumePathOf(r));
    OwnHit(x, VolumePathOf(r));
    MarksOfCreated(c, a, r, f, x);
    ExamineOne(c, child, VolumePathOf(r), x);
  }
}
