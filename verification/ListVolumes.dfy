/** ListVolumes (service/controller.go): the directories of a container matched with the exports of the array,
    examined by a pool of workers that write their findings into one slot per directory. */
module ListVolumes {
  import opened Strings
  import opened Paths
  import opened Identifiers
  import opened QuotaTag

  const DEFAULT_ACCESS_ZONE := "System"
  const CSI_HEADERS := {"x-csi-pv-name", "x-csi-pv-claimname", "x-csi-pv-namespace"}

  /** Absent lists are empty ones. */
  datatype Export = Export(id: int, zone: string, description: string, paths: seq<string>,
                           clients: seq<string>, readOnly: seq<string>, readWrite: seq<string>, root: seq<string>)

  /** `attributes` holds those of Type, Size, Owner and Group that the array reports. */
  datatype Child = Child(name: Option<string>, path: Option<string>, attributes: map<string, string>)

  /** `headers` gives the metadata headers of a path, none when they cannot be read. */
  datatype Cluster = Cluster(name: string, endpoint: string, container: string, headers: string -> set<string>)

  datatype Entry = Entry(volumeID: string, context: map<string, string>)

  // ---- one directory ----

  predicate InClients(e: Export, s: string) { s in e.clients || s in e.readOnly || s in e.readWrite || s in e.root }

  predicate HasDummyHost(e: Export) {
    match ParseNodeID(DUMMY_HOST_NODE_ID)
    case None => false
    case Some(n) => InClients(e, n.name) || InClients(e, n.fqdn) || (n.ip != "" && InClients(e, n.ip))
  }

  predicate IsCSIManaged(c: Cluster, fullPath: string, e: Export) {
    GetQuotaIDFromDescription(e.description) != "" || HasDummyHost(e) || c.headers(fullPath) * CSI_HEADERS != {}
  }

  lemma DummyHostMeans(e: Export)
    ensures HasDummyHost(e) <==> InClients(e, "localhost") || InClients(e, "127.0.0.1")
  {
    DummyHostParses();
  }

  function FullPath(c: Cluster, child: Child): string
    requires child.name.Some?
  {
    var name := child.name.value;
    Clean(if child.path.Some? && child.path.value != "" then JoinPath([child.path.value, name])
          else GetPathForVolume(Clean(c.container), name))
  }

  function Marked(c: Cluster, fullPath: string): Export -> bool { (e: Export) => IsCSIManaged(c, fullPath, e) }

  /** The first export that is marked, or none is. */
  function FirstWhere(marked: Export -> bool, es: seq<Export>): (r: Option<Export>)
    ensures r.None? <==> forall k :: 0 <= k < |es| ==> !marked(es[k])
    ensures r.Some? ==> exists k :: 0 <= k < |es| && es[k] == r.value && marked(es[k])
                                    && forall j :: 0 <= j < k ==> !marked(es[j])
  {
    if es == [] then None
    else if marked(es[0]) then Some(es[0])
    else
      var r := FirstWhere(marked, es[1..]);
      assert forall k :: 1 <= k < |es| ==> es[k] == es[1..][k - 1];
      assert r.Some? ==> exists k :: 0 <= k < |es| && es[k] == r.value && marked(es[k])
                                     && forall j :: 0 <= j < k ==> !marked(es[j]) by {
        if r.Some? {
          var k :| 0 <= k < |es[1..]| && es[1..][k] == r.value && marked(es[1..][k])
                   && forall j :: 0 <= j < k ==> !marked(es[1..][j]);
          assert es[k + 1] == r.value;
        }
      }
      r
  }

  function EntryOf(c: Cluster, child: Child, fullPath: string, e: Export): Entry
    requires child.name.Some?
  {
    var zone := if e.zone == "" then DEFAULT_ACCESS_ZONE else e.zone;
    Entry(GetNormalizedVolumeID(VolumeId(child.name.value, e.id, zone, c.name)),
          map["ID" := Itoa(e.id), "Name" := child.name.value, "Path" := fullPath, "AccessZone" := zone,
              "ClusterName" := c.name, "AzServiceIP" := c.endpoint] + child.attributes)
  }

  /** What a worker finds out about a directory whose path has these exports. */
  function Examine(c: Cluster, child: Child, fullPath: string, es: seq<Export>): Option<Entry>
    requires child.name.Some?
  {
    match FirstWhere(Marked(c, fullPath), es)
    case None => None
    case Some(e) => Some(EntryOf(c, child, fullPath, e))
  }

  // ---- exports by path ----

  function CleanAll(ps: seq<string>): seq<string> { seq(|ps|, i requires 0 <= i < |ps| => Clean(ps[i])) }

  /** `e` once for each of the first `n` of these paths that is `p`. */
  function PathHits(e: Export, paths: seq<string>, n: nat, p: string): seq<Export>
    requires n <= |paths|
  {
    if n == 0 then [] else PathHits(e, paths, n - 1, p) + if paths[n - 1] == p then [e] else []
  }

  function HitsOf(e: Option<Export>, p: string): seq<Export> {
    if e.None? then [] else PathHits(e.value, CleanAll(e.value.paths), |CleanAll(e.value.paths)|, p)
  }

  function HitsAt(p: string): Option<Export> -> seq<Export> { (e: Option<Export>) => HitsOf(e, p) }

  function Gather(f: Option<Export> -> seq<Export>, exports: seq<Option<Export>>, n: nat): seq<Export>
    requires n <= |exports|
  {
    if n == 0 then [] else Gather(f, exports, n - 1) + f(exports[n - 1])
  }

  /** The exports of `p` among the first `n`, in order. */
  function Matching(exports: seq<Option<Export>>, n: nat, p: string): seq<Export>
    requires n <= |exports|
  {
    Gather(HitsAt(p), exports, n)
  }

  function At(index: map<string, seq<Export>>, p: string): seq<Export> { if p in index then index[p] else [] }

  /** An index has no empty entries, so that a missing key and no export are the same thing. */
  ghost predicate Proper(index: map<string, seq<Export>>) { forall p :: p in index ==> index[p] != [] }

  /** `index` has at `p` what `index0` had, then `e` for each of the first `j` paths. */
  ghost predicate Extended(index: map<string, seq<Export>>, index0: map<string, seq<Export>>, e: Export,
                           paths: seq<string>, j: nat, p: string)
    requires j <= |paths|
  {
    At(index, p) == At(index0, p) + PathHits(e, paths, j, p)
  }

  /** `index` has at `p` the exports of `p` among the first `n`. */
  ghost predicate Holds(index: map<string, seq<Export>>, exports: seq<Option<Export>>, n: nat, p: string)
    requires n <= |exports|
  {
    At(index, p) == Matching(exports, n, p)
  }

  lemma OneMoreHit(start: seq<Export>, index: map<string, seq<Export>>, e: Export, paths: seq<string>, j: nat,
                   p: string)
    requires j < |paths| && At(index, p) == start + PathHits(e, paths, j, p)
    ensures At(index[paths[j] := At(index, paths[j]) + [e]], p) == start + PathHits(e, paths, j + 1, p)
  {
    var hits := PathHits(e, paths, j, p);
    if paths[j] == p {
      assert start + hits + [e] == start + (hits + [e]);
    } else {
      assert hits + [] == hits;
    }
  }

  method AddExport(e: Export, paths: seq<string>, index0: map<string, seq<Export>>)
    returns (index: map<string, seq<Export>>)
    requires Proper(index0)
    ensures Proper(index)
    ensures forall p :: Extended(index, index0, e, paths, |paths|, p)
  {
    index := index0;
    forall p ensures Extended(index, index0, e, paths, 0, p) { assert At(index, p) + [] == At(index, p); }
    for j := 0 to |paths|
      invariant Proper(index)
      invariant forall p :: Extended(index, index0, e, paths, j, p)
    {
      ghost var before, n := index, j + 1;
      index := index[paths[j] := At(index, paths[j]) + [e]];
      forall p ensures Extended(index, index0, e, paths, n, p) {
        assert Extended(before, index0, e, paths, j, p);
        OneMoreHit(At(index0, p), before, e, paths, j, p);
      }
    }
  }

  lemma OneMoreExport(before: map<string, seq<Export>>, index: map<string, seq<Export>>, exports: seq<Option<Export>>,
                      n: nat, p: string)
    requires n < |exports| && exports[n].Some? && Holds(before, exports, n, p)
    requires var e := exports[n].value; Extended(index, before, e, CleanAll(e.paths), |CleanAll(e.paths)|, p)
    ensures Holds(index, exports, n + 1, p)
  {
    assert HitsAt(p)(exports[n]) == HitsOf(exports[n], p);
  }

  lemma NoMoreExport(index: map<string, seq<Export>>, exports: seq<Option<Export>>, n: nat, p: string)
    requires n < |exports| && exports[n].None? && Holds(index, exports, n, p)
    ensures Holds(index, exports, n + 1, p)
  {
    assert HitsAt(p)(exports[n]) == [];
  }

  method ExportsByPath(exports: seq<Option<Export>>) returns (index: map<string, seq<Export>>)
    ensures Proper(index)
    ensures forall p :: Holds(index, exports, |exports|, p)
  {
    index := map[];
    for n := 0 to |exports|
      invariant Proper(index)
      invariant forall p :: Holds(index, exports, n, p)
    {
      ghost var before, next := index, n + 1;
      if exports[n].Some? { index := AddExport(exports[n].value, CleanAll(exports[n].value.paths), index); }
      forall p ensures Holds(index, exports, next, p) {
        assert Holds(before, exports, n, p);
        if exports[n].Some? {
          OneMoreExport(before, index, exports, n, p);
        } else {
          NoMoreExport(before, exports, n, p);
        }
      }
    }
  }

  // ---- the sequential listing ----

  function EntryFor(c: Cluster, exports: seq<Option<Export>>, child: Child): Option<Entry> {
    if child.name.None? then None
    else Examine(c, child, FullPath(c, child), Matching(exports, |exports|, FullPath(c, child)))
  }

  function Slots(c: Cluster, exports: seq<Option<Export>>, children: seq<Child>): seq<Option<Entry>> {
    seq(|children|, i requires 0 <= i < |children| => EntryFor(c, exports, children[i]))
  }

  function Compact(slots: seq<Option<Entry>>): seq<Entry> {
    if slots == [] then []
    else
      var last := slots[|slots| - 1];
      Compact(slots[..|slots| - 1]) + if last.Some? then [last.value] else []
  }

  /** How many of the first `n` slots are filled. */
  ghost function FilledBefore(slots: seq<Option<Entry>>, n: nat): nat
    requires n <= |slots|
  {
    |set i | 0 <= i < |slots| && slots[i].Some? && i < n|
  }

  lemma FilledNext(slots: seq<Option<Entry>>, n: nat)
    requires n < |slots|
    ensures FilledBefore(slots, n + 1) == FilledBefore(slots, n) + if slots[n].Some? then 1 else 0
  {
    var before := set i | 0 <= i < |slots| && slots[i].Some? && i < n;
    var after := set i | 0 <= i < |slots| && slots[i].Some? && i < n + 1;
    assert after == if slots[n].Some? then before + {n} else before;
  }

  /** `entries` holds the values of the filled slots among the first `n`, each at the place that counts the
      filled slots before it. */
  ghost predicate Collected(slots: seq<Option<Entry>>, n: nat, entries: seq<Entry>)
    requires n <= |slots|
  {
    && |entries| == FilledBefore(slots, n)
    && forall i :: 0 <= i < n && slots[i].Some? ==>
         FilledBefore(slots, i) < |entries| && entries[FilledBefore(slots, i)] == slots[i].value
  }

  lemma CollectNext(slots: seq<Option<Entry>>, n: nat, entries: seq<Entry>)
    requires n < |slots| && Collected(slots, n, entries)
    ensures Collected(slots, n + 1, if slots[n].Some? then entries + [slots[n].value] else entries)
  {
    FilledNext(slots, n);
  }

  lemma {:induction false} CompactCollects(slots: seq<Option<Entry>>, n: nat)
    requires n <= |slots|
    ensures Collected(slots, n, Compact(slots[..n]))
  {
    if n == 0 {
      assert (set i | 0 <= i < |slots| && slots[i].Some? && i < n) == {};
    } else {
      CompactCollects(slots, n - 1);
      CollectNext(slots, n - 1, Compact(slots[..n - 1]));
      assert slots[..n][..n - 1] == slots[..n - 1];
    }
  }

  method CollectEntries(slots: seq<Option<Entry>>) returns (entries: seq<Entry>)
    ensures Collected(slots, |slots|, entries)
    ensures entries == Compact(slots)
  {
    CompactCollects(slots, |slots|);
    entries := [];
    for i := 0 to |slots|
      invariant entries == Compact(slots[..i])
    {
      assert slots[..i + 1][..i] == slots[..i];
      if slots[i].Some? { entries := entries + [slots[i].value]; }
    }
    assert slots[..|slots|] == slots;
  }

  // ---- what is listed ----

  /** One of the export's paths is `p`. */
  ghost predicate HasPath(e: Export, p: string) { exists k :: 0 <= k < |e.paths| && Clean(e.paths[k]) == p }

  /** The export at `n` is there, has the path and bears a mark of the driver. */
  ghost predicate Listable(c: Cluster, exports: seq<Option<Export>>, n: nat, p: string)
    requires n < |exports|
  {
    exports[n].Some? && HasPath(exports[n].value, p) && IsCSIManaged(c, p, exports[n].value)
  }

  /** The hits of one export are copies of it, and there are some exactly when it has the path. */
  lemma HitsOfExport(e: Export, p: string)
    ensures HitsOf(Some(e), p) != [] <==> HasPath(e, p)
    ensures forall k :: 0 <= k < |HitsOf(Some(e), p)| ==> HitsOf(Some(e), p)[k] == e
  {
    var ps := CleanAll(e.paths);
    HitsAreCopies(e, ps, |ps|, p);
    if k :| 0 <= k < |ps| && ps[k] == p { assert Clean(e.paths[k]) == p; }
    if k :| 0 <= k < |e.paths| && Clean(e.paths[k]) == p { assert ps[k] == p; }
  }

  lemma {:induction false} HitsAreCopies(e: Export, ps: seq<string>, n: nat, p: string)
    requires n <= |ps|
    ensures PathHits(e, ps, n, p) != [] <==> exists k :: 0 <= k < n && ps[k] == p
    ensures forall k :: 0 <= k < |PathHits(e, ps, n, p)| ==> PathHits(e, ps, n, p)[k] == e
  {
    if n > 0 { HitsAreCopies(e, ps, n - 1, p); }
  }

  lemma {:induction false} FirstWhereAppend(marked: Export -> bool, a: seq<Export>, b: seq<Export>)
    ensures FirstWhere(marked, a + b)
            == if FirstWhere(marked, a).Some? then FirstWhere(marked, a) else FirstWhere(marked, b)
  {
    if a == [] {
      assert a + b == b;
    } else {
      assert (a + b)[1..] == a[1..] + b && (a + b)[0] == a[0];
      FirstWhereAppend(marked, a[1..], b);
    }
  }

  lemma FirstOfCopies(marked: Export -> bool, e: Export, es: seq<Export>)
    requires forall k :: 0 <= k < |es| ==> es[k] == e
    ensures FirstWhere(marked, es) == if es != [] && marked(e) then Some(e) else None
  {
  }

  /** `r` is the first of the first `n` exports that `good` picks, or it picks none. */
  ghost predicate IsFirst(good: seq<bool>, exports: seq<Option<Export>>, n: nat, r: Option<Export>)
    requires n <= |exports| == |good|
  {
    && (r.None? <==> forall k :: 0 <= k < n ==> !good[k])
    && (r.Some? ==> exists k :: 0 <= k < n && good[k] && r == exports[k] && forall j :: 0 <= j < k ==> !good[j])
  }

  lemma {:induction false} FirstGathered(marked: Export -> bool, f: Option<Export> -> seq<Export>, good: seq<bool>,
                                         exports: seq<Option<Export>>, n: nat)
    requires n <= |exports| == |good|
    requires forall k :: 0 <= k < |exports| ==> good[k] ==> exports[k].Some?
    requires forall k :: 0 <= k < |exports| ==>
               FirstWhere(marked, f(exports[k])) == if good[k] then exports[k] else None
    ensures IsFirst(good, exports, n, FirstWhere(marked, Gather(f, exports, n)))
  {
    if n > 0 {
      FirstGathered(marked, f, good, exports, n - 1);
      var r := FirstWhere(marked, Gather(f, exports, n - 1));
      FirstWhereAppend(marked, Gather(f, exports, n - 1), f(exports[n - 1]));
      if r.Some? {
        var k :| 0 <= k < n - 1 && good[k] && r == exports[k] && forall j :: 0 <= j < k ==> !good[j];
        assert k < n;
      }
    }
  }

  lemma HitsAreListable(c: Cluster, exports: seq<Option<Export>>, p: string, n: nat)
    requires n < |exports|
    ensures FirstWhere(Marked(c, p), HitsAt(p)(exports[n])) == if Listable(c, exports, n, p) then exports[n] else None
  {
    if exports[n].Some? {
      HitsOfExport(exports[n].value, p);
      FirstOfCopies(Marked(c, p), exports[n].value, HitsOf(exports[n], p));
    }
  }

  ghost function Good(c: Cluster, exports: seq<Option<Export>>, p: string): seq<bool> {
    seq(|exports|, k requires 0 <= k < |exports| => Listable(c, exports, k, p))
  }

  lemma FirstMatching(c: Cluster, exports: seq<Option<Export>>, p: string)
    ensures IsFirst(Good(c, exports, p), exports, |exports|, FirstWhere(Marked(c, p), Matching(exports, |exports|, p)))
  {
    forall k | 0 <= k < |exports|
      ensures FirstWhere(Marked(c, p), HitsAt(p)(exports[k])) == if Good(c, exports, p)[k] then exports[k] else None
    {
      HitsAreListable(c, exports, p, k);
    }
    FirstGathered(Marked(c, p), HitsAt(p), Good(c, exports, p), exports, |exports|);
  }

  /** Which export a directory is listed with: the first one, in the order of the array, that has its path and
      bears a mark of the driver; nothing is listed if there is no such export, or if the directory has no name. */
  lemma ListedWithFirst(c: Cluster, exports: seq<Option<Export>>, child: Child)
    ensures child.name.None? ==> EntryFor(c, exports, child).None?
    ensures child.name.Some? ==>
              var p, entry := FullPath(c, child), EntryFor(c, exports, child);
              && (entry.None? <==> forall k :: 0 <= k < |exports| ==> !Listable(c, exports, k, p))
              && (entry.Some? ==> exists k :: 0 <= k < |exports| && Listable(c, exports, k, p)
                                              && entry.value == EntryOf(c, child, p, exports[k].value)
                                              && forall j :: 0 <= j < k ==> !Listable(c, exports, j, p))
  {
    if child.name.Some? {
      var p := FullPath(c, child);
      FirstMatching(c, exports, p);
      EntryOfFirst(c, exports, child, p, FirstWhere(Marked(c, p), Matching(exports, |exports|, p)));
    }
  }

  lemma EntryOfFirst(c: Cluster, exports: seq<Option<Export>>, child: Child, p: string, r: Option<Export>)
    requires child.name.Some? && IsFirst(Good(c, exports, p), exports, |exports|, r)
    ensures r.None? <==> forall k :: 0 <= k < |exports| ==> !Listable(c, exports, k, p)
    ensures r.Some? ==> exists k :: 0 <= k < |exports| && Listable(c, exports, k, p)
                                    && EntryOf(c, child, p, r.value) == EntryOf(c, child, p, exports[k].value)
                                    && forall j :: 0 <= j < k ==> !Listable(c, exports, j, p)
  {
    var good := Good(c, exports, p);
    forall k | 0 <= k < |exports| ensures good[k] <==> Listable(c, exports, k, p) {}
    if r.Some? {
      var k :| 0 <= k < |exports| && good[k] && r == exports[k] && forall j :: 0 <= j < k ==> !good[j];
      assert Listable(c, exports, k, p);
    }
  }

  /** The marks of the driver, written out. */
  lemma MarksWrittenOut(c: Cluster, p: string, e: Export)
    ensures IsCSIManaged(c, p, e)
            <==> || GetQuotaIDFromDescription(e.description) != ""
                 || InClients(e, "localhost") || InClients(e, "127.0.0.1")
                 || "x-csi-pv-name" in c.headers(p) || "x-csi-pv-claimname" in c.headers(p)
                 || "x-csi-pv-namespace" in c.headers(p)
  {
    DummyHostMeans(e);
    var hs := c.headers(p) * CSI_HEADERS;
    if h :| h in hs { assert h in c.headers(p); }
    assert "x-csi-pv-name" in c.headers(p) ==> "x-csi-pv-name" in hs;
    assert "x-csi-pv-claimname" in c.headers(p) ==> "x-csi-pv-claimname" in hs;
    assert "x-csi-pv-namespace" in c.headers(p) ==> "x-csi-pv-namespace" in hs;
  }

  function ZoneOf(e: Export): string { if e.zone == "" then "System" else e.zone }

  /** The volume ID of an entry parses back into name, export, zone and cluster; an export without a zone is in
      System. */
  lemma EntryIsIdentified(c: Cluster, child: Child, fullPath: string, e: Export)
    requires child.name.Some? && IsInt64(e.id) && IdSafe(child.name.value) && IdSafe(e.zone)
    requires !Contains(c.name, VOLUME_ID_SEPARATOR)
    ensures ParseNormalizedVolumeID(EntryOf(c, child, fullPath, e).volumeID)
            == Some(VolumeId(child.name.value, e.id, ZoneOf(e), c.name))
  {
    NoEqualsSignIsSafe("System");
    VolumeIdRoundTrip(VolumeId(child.name.value, e.id, ZoneOf(e), c.name));
  }

  /** The context of an entry says the same, and what the array reports beside it. */
  lemma EntryDescribes(c: Cluster, child: Child, fullPath: string, e: Export)
    requires child.name.Some? && child.attributes.Keys <= {"Type", "Size", "Owner", "Group"}
    ensures var m := EntryOf(c, child, fullPath, e).context;
            && m.Keys == {"ID", "Name", "Path", "AccessZone", "ClusterName", "AzServiceIP"} + child.attributes.Keys
            && m["ID"] == Itoa(e.id) && m["Name"] == child.name.value && m["Path"] == fullPath
            && m["AccessZone"] == ZoneOf(e) && m["ClusterName"] == c.name && m["AzServiceIP"] == c.endpoint
            && forall k :: k in child.attributes ==> m[k] == child.attributes[k]
  {
    var m := EntryOf(c, child, fullPath, e).context;
    assert |"ID"| == 2 && |"Name"| == 4 && |"Path"| == 4 && |"AccessZone"| == 10 && |"ClusterName"| == 11;
    assert "Name"[0] == 'N' && "Path"[0] == 'P' && "Type"[0] == 'T' && "Size"[0] == 'S' && |"AzServiceIP"| == 11;
    assert "AzServiceIP"[0] == 'A' && "ClusterName"[0] == 'C';
  }

  // ---- candidates ----

  datatype Candidate = Candidate(index: nat, fullPath: string, exports: seq<Export>)

  ghost predicate RightCandidate(c: Cluster, exports: seq<Option<Export>>, children: seq<Child>, d: Candidate) {
    && d.index < |children| && children[d.index].name.Some?
    && d.fullPath == FullPath(c, children[d.index]) && d.exports == Matching(exports, |exports|, d.fullPath)
  }

  /** The first `n` directories have been considered: those left out have nothing to list, and no two
      candidates share a slot. */
  ghost predicate Considered(ds: seq<Candidate>, want: seq<Option<Entry>>, n: nat) {
    && (forall k :: 0 <= k < |ds| ==> ds[k].index < n)
    && (forall j, k :: 0 <= j < k < |ds| ==> ds[j].index < ds[k].index)
    && (forall i :: 0 <= i < n && i < |want| && want[i].Some? ==> exists k :: 0 <= k < |ds| && ds[k].index == i)
  }

  method FindCandidates(c: Cluster, exports: seq<Option<Export>>, children: seq<Child>) returns (ds: seq<Candidate>)
    ensures Considered(ds, Slots(c, exports, children), |children|)
    ensures forall k :: 0 <= k < |ds| ==> RightCandidate(c, exports, children, ds[k])
  {
    var index := ExportsByPath(exports);
    ghost var want := Slots(c, exports, children);
    ds := [];
    for i := 0 to |children|
      invariant Considered(ds, want, i)
      invariant forall k :: 0 <= k < |ds| ==> RightCandidate(c, exports, children, ds[k])
    {
      ghost var before := ds;
      if children[i].name.Some? {
        var p := FullPath(c, children[i]);
        assert Holds(index, exports, |exports|, p);
        if p in index { ds := ds + [Candidate(i, p, index[p])]; }
      }
      ConsiderOne(before, ds, want, i);
    }
  }

  lemma ConsiderOne(before: seq<Candidate>, ds: seq<Candidate>, want: seq<Option<Entry>>, i: nat)
    requires i < |want| && Considered(before, want, i)
    requires (ds == before && want[i].None?) || (ds != [] && ds[..|ds| - 1] == before && ds[|ds| - 1].index == i)
    ensures Considered(ds, want, i + 1)
  {
    forall k | 0 <= k < |before| ensures ds[k] == before[k] {
      assert ds == before || ds[..|ds| - 1][k] == ds[k];
    }
    forall j | 0 <= j < i + 1 && want[j].Some? ensures exists k :: 0 <= k < |ds| && ds[k].index == j {
      if j < i {
        var k :| 0 <= k < |before| && before[k].index == j;
        assert ds[k].index == j;
      } else {
        assert ds[|ds| - 1].index == j;
      }
    }
  }

  // ---- the pool ----

  datatype Worker = Idle | Busy(k: nat) | Gone

  /** `sent` candidates have gone through the queue; `closed` once the queue is. */
  datatype Pool = Pool(sent: nat, closed: bool, workers: seq<Worker>, slots: seq<Option<Entry>>)

  /** A hand-over (the queue has no buffer), the end of one examination, closing the queue, a worker leaving. */
  datatype Action = Hand(w: nat) | Finish(w: nat) | Close | Leave(w: nat)

  /** One candidate: the slot it owns and what its examination will find. */
  datatype Task = Task(index: nat, finding: Option<Entry>)

  /** The tasks, and the slots that one pass in order would fill. */
  datatype Job = Job(tasks: seq<Task>, want: seq<Option<Entry>>)

  ghost predicate GoodJob(j: Job) {
    && (forall k :: 0 <= k < |j.tasks| ==>
          j.tasks[k].index < |j.want| && j.tasks[k].finding == j.want[j.tasks[k].index])
    && (forall i, k :: 0 <= i < k < |j.tasks| ==> j.tasks[i].index < j.tasks[k].index)
    && (forall i :: 0 <= i < |j.want| && j.want[i].Some? ==> exists k :: 0 <= k < |j.tasks| && j.tasks[k].index == i)
  }

  ghost predicate Enabled(j: Job, s: Pool, act: Action) {
    match act
    case Hand(w) => w < |s.workers| && s.workers[w] == Idle && s.sent < |j.tasks|
    case Finish(w) => w < |s.workers| && s.workers[w].Busy?
    case Close => !s.closed && s.sent == |j.tasks|
    case Leave(w) => w < |s.workers| && s.workers[w] == Idle && s.closed
  }

  /** The slot is written only if the directory has a managed export. */
  function Written(j: Job, s: Pool, k: nat): seq<Option<Entry>> {
    if k < |j.tasks| && j.tasks[k].index < |s.slots| && j.tasks[k].finding.Some?
    then s.slots[j.tasks[k].index := j.tasks[k].finding]
    else s.slots
  }

  ghost function Do(j: Job, s: Pool, act: Action): Pool
    requires Enabled(j, s, act)
  {
    match act
    case Hand(w) => s.(sent := s.sent + 1, workers := s.workers[w := Busy(s.sent)])
    case Finish(w) => s.(workers := s.workers[w := Idle], slots := Written(j, s, s.workers[w].k))
    case Close => s.(closed := true)
    case Leave(w) => s.(workers := s.workers[w := Gone])
  }

  function Start(j: Job, workers: nat): Pool {
    Pool(0, false, seq(workers, _ => Idle), seq(|j.want|, _ => None))
  }

  /** The main routine stops waiting. */
  ghost predicate Done(s: Pool) { s.closed && forall w :: 0 <= w < |s.workers| ==> s.workers[w] == Gone }

  ghost predicate SlotRight(j: Job, s: Pool, i: nat)
    requires i < |j.want| && i < |s.slots|
  {
    s.slots[i] == j.want[i]
  }

  ghost predicate Inv(j: Job, s: Pool) {
    && s.sent <= |j.tasks| && |s.slots| == |j.want|
    && (s.closed ==> s.sent == |j.tasks|)
    && (forall w :: 0 <= w < |s.workers| && s.workers[w].Busy? ==> s.workers[w].k < s.sent)
    && (forall w :: 0 <= w < |s.workers| && s.workers[w].Gone? ==> s.closed)
    && (forall i :: 0 <= i < |s.slots| ==> s.slots[i].None? || SlotRight(j, s, i))
    && (forall k :: 0 <= k < s.sent ==>
          Busy(k) in s.workers || (j.tasks[k].index < |s.slots| && SlotRight(j, s, j.tasks[k].index)))
  }

  lemma FinishKeepsInv(j: Job, s: Pool, w: nat)
    requires GoodJob(j) && Inv(j, s) && Enabled(j, s, Finish(w))
    ensures Inv(j, Do(j, s, Finish(w)))
  {
    var t, k := Do(j, s, Finish(w)), s.workers[w].k;
    var d := j.tasks[k];
    assert SlotRight(j, t, d.index);
    forall i | 0 <= i < |t.slots| ensures t.slots[i].None? || SlotRight(j, t, i) {
      if i != d.index { assert t.slots[i] == s.slots[i]; }
    }
    forall m | 0 <= m < t.sent
      ensures Busy(m) in t.workers || (j.tasks[m].index < |t.slots| && SlotRight(j, t, j.tasks[m].index))
    {
      if m != k {
        assert j.tasks[m].index != d.index;
        if Busy(m) in s.workers {
          var v :| 0 <= v < |s.workers| && s.workers[v] == Busy(m);
          assert t.workers[v] == Busy(m);
        } else {
          assert SlotRight(j, s, j.tasks[m].index);
        }
      }
    }
  }

  lemma HandKeepsInv(j: Job, s: Pool, w: nat)
    requires GoodJob(j) && Inv(j, s) && Enabled(j, s, Hand(w))
    ensures Inv(j, Do(j, s, Hand(w)))
  {
    var t := Do(j, s, Hand(w));
    assert t.workers[w] == Busy(s.sent);
    OthersStayBusy(j, s, t, w);
  }

  lemma LeaveKeepsInv(j: Job, s: Pool, w: nat)
    requires GoodJob(j) && Inv(j, s) && Enabled(j, s, Leave(w))
    ensures Inv(j, Do(j, s, Leave(w)))
  {
    OthersStayBusy(j, s, Do(j, s, Leave(w)), w);
  }

  lemma OthersStayBusy(j: Job, s: Pool, t: Pool, w: nat)
    requires Inv(j, s) && w < |s.workers| && s.workers[w] == Idle && t.slots == s.slots
    requires |t.workers| == |s.workers| && t.workers == s.workers[w := t.workers[w]]
    ensures forall k :: 0 <= k < s.sent ==>
              Busy(k) in t.workers || (j.tasks[k].index < |t.slots| && SlotRight(j, t, j.tasks[k].index))
    ensures forall i :: 0 <= i < |t.slots| ==> t.slots[i].None? || SlotRight(j, t, i)
  {
    forall i | 0 <= i < |t.slots| ensures t.slots[i].None? || SlotRight(j, t, i) {
      assert s.slots[i].None? || SlotRight(j, s, i);
    }
    forall k | 0 <= k < s.sent
      ensures Busy(k) in t.workers || (j.tasks[k].index < |t.slots| && SlotRight(j, t, j.tasks[k].index))
    {
      if Busy(k) in s.workers {
        var v :| 0 <= v < |s.workers| && s.workers[v] == Busy(k);
        assert t.workers[v] == Busy(k);
      } else {
        assert SlotRight(j, s, j.tasks[k].index);
      }
    }
  }

  lemma CloseKeepsInv(j: Job, s: Pool)
    requires GoodJob(j) && Inv(j, s) && Enabled(j, s, Close)
    ensures Inv(j, Do(j, s, Close))
  {
    var t := Do(j, s, Close);
    forall i | 0 <= i < |t.slots| ensures t.slots[i].None? || SlotRight(j, t, i) {
      assert s.slots[i].None? || SlotRight(j, s, i);
    }
    forall k | 0 <= k < t.sent
      ensures Busy(k) in t.workers || (j.tasks[k].index < |t.slots| && SlotRight(j, t, j.tasks[k].index))
    {
      assert Busy(k) in s.workers || SlotRight(j, s, j.tasks[k].index);
    }
  }

  lemma StepKeepsInv(j: Job, s: Pool, act: Action)
    requires GoodJob(j) && Inv(j, s) && Enabled(j, s, act)
    ensures Inv(j, Do(j, s, act))
  {
    match act
    case Hand(w) => HandKeepsInv(j, s, w);
    case Finish(w) => FinishKeepsInv(j, s, w);
    case Close => CloseKeepsInv(j, s);
    case Leave(w) => LeaveKeepsInv(j, s, w);
  }

  /** `acts` is a schedule that takes `s` to `t`. */
  ghost predicate Run(j: Job, s: Pool, acts: seq<Action>, t: Pool)
    decreases |acts|
  {
    if acts == [] then s == t
    else Enabled(j, s, acts[0]) && Run(j, Do(j, s, acts[0]), acts[1..], t)
  }

  lemma {:induction false} RunKeepsInv(j: Job, s: Pool, acts: seq<Action>, t: Pool)
    requires GoodJob(j) && Inv(j, s) && Run(j, s, acts, t)
    ensures Inv(j, t)
    decreases |acts|
  {
    if acts != [] {
      StepKeepsInv(j, s, acts[0]);
      RunKeepsInv(j, Do(j, s, acts[0]), acts[1..], t);
    }
  }

  lemma PoolFillsWantedSlots(j: Job, workers: nat, acts: seq<Action>, t: Pool)
    requires GoodJob(j) && Run(j, Start(j, workers), acts, t) && Done(t)
    ensures t.slots == j.want
  {
    RunKeepsInv(j, Start(j, workers), acts, t);
    forall i | 0 <= i < |t.slots| ensures SlotRight(j, t, i) {
      if j.want[i].Some? {
        var k :| 0 <= k < |j.tasks| && j.tasks[k].index == i;
        assert Busy(k) !in t.workers;
      }
    }
    assert forall i :: 0 <= i < |t.slots| ==> SlotRight(j, t, i);
  }

  ghost function TaskOf(c: Cluster, exports: seq<Option<Export>>, children: seq<Child>, d: Candidate): Task
    requires RightCandidate(c, exports, children, d)
  {
    Task(d.index, Examine(c, children[d.index], d.fullPath, d.exports))
  }

  /** The job the driver makes of its candidates. */
  ghost predicate IsJob(c: Cluster, exports: seq<Option<Export>>, children: seq<Child>, ds: seq<Candidate>, j: Job) {
    && Considered(ds, Slots(c, exports, children), |children|) && j.want == Slots(c, exports, children)
    && |j.tasks| == |ds|
    && forall k :: 0 <= k < |ds| ==>
         RightCandidate(c, exports, children, ds[k]) && j.tasks[k] == TaskOf(c, exports, children, ds[k])
  }

  lemma JobIsGood(c: Cluster, exports: seq<Option<Export>>, children: seq<Child>, ds: seq<Candidate>, j: Job)
    requires IsJob(c, exports, children, ds, j)
    ensures GoodJob(j)
  {
    forall k | 0 <= k < |j.tasks| ensures j.tasks[k].index == ds[k].index < |j.want|
                                          && j.tasks[k].finding == j.want[j.tasks[k].index] {
      FindsWhatOnePassFinds(c, exports, children, ds[k]);
    }
    forall i | 0 <= i < |j.want| && j.want[i].Some? ensures exists k :: 0 <= k < |j.tasks| && j.tasks[k].index == i {
      var k :| 0 <= k < |ds| && ds[k].index == i;
      assert j.tasks[k].index == i;
    }
  }

  lemma FindsWhatOnePassFinds(c: Cluster, exports: seq<Option<Export>>, children: seq<Child>, d: Candidate)
    requires RightCandidate(c, exports, children, d)
    ensures TaskOf(c, exports, children, d).finding == Slots(c, exports, children)[d.index]
  {
  }

  /** Every schedule of any number of workers lists what one pass in order lists, in the same order. */
  lemma PoolListsSequentially(c: Cluster, exports: seq<Option<Export>>, children: seq<Child>, ds: seq<Candidate>,
                              j: Job, workers: nat, acts: seq<Action>, t: Pool)
    requires IsJob(c, exports, children, ds, j) && Run(j, Start(j, workers), acts, t) && Done(t)
    ensures t.slots == Slots(c, exports, children)
    ensures Collected(Slots(c, exports, children), |children|, Compact(t.slots))
  {
    JobIsGood(c, exports, children, ds, j);
    PoolFillsWantedSlots(j, workers, acts, t);
    var slots := Slots(c, exports, children);
    CompactCollects(slots, |slots|);
    assert slots[..|slots|] == slots;
  }

  /** Without candidates the driver starts no worker and answers an empty list, which is right. */
  lemma NoCandidatesNothingListed(c: Cluster, exports: seq<Option<Export>>, children: seq<Child>)
    requires Considered([], Slots(c, exports, children), |children|)
    ensures Compact(Slots(c, exports, children)) == []
  {
    NothingToCompact(Slots(c, exports, children));
  }

  lemma {:induction false} NothingToCompact(s: seq<Option<Entry>>)
    requires forall i :: 0 <= i < |s| ==> s[i].None?
    ensures Compact(s) == []
  {
    if s != [] { NothingToCompact(s[..|s| - 1]); }
  }

  // ---- progress ----

  /** The pool never blocks before every worker has left. */
  lemma SomeoneCanMove(j: Job, s: Pool) returns (act: Action)
    requires Inv(j, s) && |s.workers| > 0 && !Done(s)
    ensures Enabled(j, s, act)
  {
    if w :| 0 <= w < |s.workers| && s.workers[w].Busy? {
      act := Finish(w);
    } else if s.sent < |j.tasks| {
      assert s.workers[0] == Idle;
      act := Hand(0);
    } else if !s.closed {
      act := Close;
    } else {
      var w :| 0 <= w < |s.workers| && s.workers[w] != Gone;
      act := Leave(w);
    }
  }

  function Weight(ws: seq<Worker>): nat {
    if ws == [] then 0
    else (match ws[0] case Idle => 1 case Busy(_) => 2 case Gone => 0) + Weight(ws[1..])
  }

  ghost function Fuel(j: Job, s: Pool): int {
    2 * (|j.tasks| - s.sent) + Weight(s.workers) + if s.closed then 0 else 1
  }

  lemma {:induction false} WeightUpdate(ws: seq<Worker>, w: nat, x: Worker)
    requires w < |ws|
    ensures Weight(ws[w := x]) == Weight(ws) - Weight([ws[w]]) + Weight([x])
  {
    assert Weight([x][1..]) == 0 && Weight([ws[w]][1..]) == 0;
    if w == 0 {
      assert ws[w := x][1..] == ws[1..];
    } else {
      assert ws[w := x][1..] == ws[1..][w - 1 := x];
      WeightUpdate(ws[1..], w - 1, x);
    }
  }

  lemma StepBurnsFuel(j: Job, s: Pool, act: Action)
    requires Inv(j, s) && Enabled(j, s, act)
    ensures Fuel(j, Do(j, s, act)) == Fuel(j, s) - 1
  {
    match act
    case Hand(w) => WeightUpdate(s.workers, w, Busy(s.sent));
    case Finish(w) => WeightUpdate(s.workers, w, Idle);
    case Close =>
    case Leave(w) => WeightUpdate(s.workers, w, Gone);
  }

  lemma {:induction false} RunIsBounded(j: Job, s: Pool, acts: seq<Action>, t: Pool)
    requires GoodJob(j) && Inv(j, s) && Run(j, s, acts, t)
    ensures |acts| == Fuel(j, s) - Fuel(j, t)
    decreases |acts|
  {
    if acts != [] {
      StepBurnsFuel(j, s, acts[0]);
      StepKeepsInv(j, s, acts[0]);
      RunIsBounded(j, Do(j, s, acts[0]), acts[1..], t);
    }
  }

  lemma {:induction false} AllIdle(n: nat)
    ensures Weight(seq(n, _ => Idle)) == n
  {
    if n > 0 {
      assert seq(n, _ => Idle)[1..] == seq(n - 1, _ => Idle);
      AllIdle(n - 1);
    }
  }

  /** A listing ends: whatever the schedule, it takes at most two steps for each candidate, one for each
      worker and one to close the queue. */
  lemma ListingEnds(j: Job, workers: nat, acts: seq<Action>, t: Pool)
    requires GoodJob(j) && Run(j, Start(j, workers), acts, t)
    ensures |acts| <= 2 * |j.tasks| + workers + 1
  {
    AllIdle(workers);
    RunIsBounded(j, Start(j, workers), acts, t);
    RunKeepsInv(j, Start(j, workers), acts, t);
  }
}
