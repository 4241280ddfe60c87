/** Where the tracking directory of a snapshot lives: creation starts from the snapshot's own path, deletion
    from the path of the export (service/isiService.go, service/controller.go). */
module SnapshotPaths {
  import opened Strings
  import opened Paths

  const SNAPSHOT_DIR := ".snapshot"

  datatype Components = Components(isiPath: string, snapshotName: string, srcVolName: string)

  /** GetSnapshotIsiPathComponents; `None` where the original indexes past the end of a slice. */
  function GetSnapshotIsiPathComponents(snapshotIsiPath: string, zonePath: string): Option<Components>
    requires zonePath != ""
  {
    var dirs := Split(snapshotIsiPath, SLASH);
    var src := dirs[|dirs| - 1];
    if |dirs| < 3 then None
    else if dirs[2] != SNAPSHOT_DIR then
      var parts := Split(snapshotIsiPath, zonePath);
      if |parts| < 2 then None else FromZoneRemainder(parts[1], zonePath, src)
    else if |dirs| < 5 then None
    else Some(Components(JoinPath([SLASH, dirs[1], Join(dirs[4..|dirs| - 1], SLASH)]), dirs[3], src))
  }

  /** The branch for zones other than System: `text` is what stands between the first two zone paths. */
  function FromZoneRemainder(text: string, zonePath: string, src: string): Option<Components> {
    var directories := Split(text, SLASH);
    if |directories| < 3 then None
    else if |directories| > 3 then
      var remain := Join(directories[3..|directories| - 1], SLASH);
      Some(Components(JoinPath([SLASH, zonePath, remain]), directories[2], src))
    else Some(Components(zonePath, directories[2], src))
  }

  function GetSnapshotTrackingDirName(snapshotName: string): string {
    "." + "csi-" + snapshotName + "-tracking-dir"
  }

  /** Different snapshots have different tracking directories, with names of one form. */
  lemma TrackingDirsDiffer(a: string, b: string)
    ensures GetSnapshotTrackingDirName(a) == GetSnapshotTrackingDirName(b) <==> a == b
    ensures HasPrefix(GetSnapshotTrackingDirName(a), ".csi-")
    ensures HasSuffix(GetSnapshotTrackingDirName(a), "-tracking-dir")
  {
    var x, y := GetSnapshotTrackingDirName(a), GetSnapshotTrackingDirName(b);
    assert x[5..|x| - 13] == a && y[5..|y| - 13] == b;
    assert x[..5] == ".csi-" && x[|x| - 13..] == "-tracking-dir";
  }

  /** isROVolumeFromSnapshot. */
  predicate IsROVolumeFromSnapshot(exportPath: string, accessZone: string) {
    if accessZone == "System" then HasPrefix(exportPath, "/ifs/.snapshot") else Index(exportPath, "/.snapshot") != -1
  }

  // ---- which paths are those of snapshots ----

  const MARK := "/.snapshot"

  lemma MarkInCons(c: string, tail: string)
    requires '/' !in c && (tail == "" || tail[0] == '/')
    ensures Contains(SLASH + c + tail, MARK) <==> HasPrefix(c, ".snapshot") || Contains(tail, MARK)
  {
    var s := SLASH + c + tail;
    if HasPrefix(c, ".snapshot") {
      assert s[0..10] == SLASH + c[..9];
      assert At(s, MARK, 0);
    }
    if j :| At(tail, MARK, j) {
      assert s[1 + |c| + j..1 + |c| + j + 10] == tail[j..j + 10];
      assert At(s, MARK, 1 + |c| + j);
    }
    if i :| At(s, MARK, i) {
      MarkPosition(c, tail, i);
    }
  }

  /** An occurrence stands at the slash before `c`, or after `c`. */
  lemma MarkPosition(c: string, tail: string, i: int)
    requires '/' !in c && (tail == "" || tail[0] == '/') && At(SLASH + c + tail, MARK, i)
    ensures HasPrefix(c, ".snapshot") || Contains(tail, MARK)
  {
    var s, n := SLASH + c + tail, 1 + |c|;
    AtChar(s, MARK, i, 0);
    assert forall m :: 1 <= m < n ==> s[m] == c[m - 1];
    if i >= n {
      ShiftMark(SLASH + c, tail, i - n);
    } else {
      forall k | 0 <= k < 9 ensures s[k + 1] == ".snapshot"[k] {
        AtChar(s, MARK, 0, k + 1);
        assert MARK[k + 1] == ".snapshot"[k];
      }
      ShortComponent(c, tail);
      assert c[..9] == ".snapshot";
    }
  }

  lemma ShiftMark(head: string, tail: string, j: nat)
    requires At(head + tail, MARK, |head| + j)
    ensures At(tail, MARK, j)
  {
    var s := head + tail;
    assert s[|head|..] == tail;
    assert s[|head|..][j..j + 10] == s[|head| + j..|head| + j + 10];
  }

  lemma ShortComponent(c: string, tail: string)
    requires tail == "" || tail[0] == '/'
    requires |SLASH + c + tail| >= 10 && forall k :: 0 <= k < 9 ==> (SLASH + c + tail)[k + 1] == ".snapshot"[k]
    ensures |c| >= 9 && forall k :: 0 <= k < 9 ==> c[k] == ".snapshot"[k]
  {
    var s, k := SLASH + c + tail, if |c| < 9 then |c| else 0;
    assert s[k + 1] == ".snapshot"[k] && ".snapshot"[k] != '/';
    assert forall m :: 0 <= m < |tail| ==> s[|c| + 1 + m] == tail[m];
    assert forall m :: 0 <= m < |c| ==> s[m + 1] == c[m];
  }

  lemma {:induction false} MarkInAbs(cs: seq<string>)
    requires cs != [] && AllPlain(cs)
    ensures Contains(Abs(cs), MARK) <==> exists k :: 0 <= k < |cs| && HasPrefix(cs[k], ".snapshot")
  {
    if |cs| == 1 {
      assert Abs(cs) == SLASH + cs[0] + "";
      MarkInCons(cs[0], "");
      assert !Contains("", MARK);
    } else {
      var tail := Abs(cs[1..]);
      assert Abs(cs) == SLASH + cs[0] + tail;
      MarkInCons(cs[0], tail);
      MarkInAbs(cs[1..]);
      if k :| 0 <= k < |cs[1..]| && HasPrefix(cs[1..][k], ".snapshot") { assert HasPrefix(cs[k + 1], ".snapshot"); }
      if k :| 0 <= k < |cs| && HasPrefix(cs[k], ".snapshot") {
        if k > 0 { assert HasPrefix(cs[1..][k - 1], ".snapshot"); }
      }
    }
  }

  /** In an access zone other than System a path is one of a snapshot exactly when some component begins with
      ".snapshot". */
  lemma ZonePathIsOfSnapshotIff(cs: seq<string>, accessZone: string)
    requires cs != [] && AllPlain(cs) && accessZone != "System"
    ensures IsROVolumeFromSnapshot(Abs(cs), accessZone)
            <==> exists k :: 0 <= k < |cs| && HasPrefix(cs[k], ".snapshot")
  {
    MarkInAbs(cs);
    NotContained(Abs(cs), MARK);
  }

  /** In System it is exactly the component below /ifs that counts. */
  lemma SystemPathIsOfSnapshotIff(cs: seq<string>)
    requires |cs| >= 2 && AllPlain(cs) && cs[0] == "ifs"
    ensures IsROVolumeFromSnapshot(Abs(cs), "System") <==> HasPrefix(cs[1], ".snapshot")
  {
    var tail := if |cs| == 2 then "" else Abs(cs[2..]);
    AbsOfTwo(cs, tail);
    SystemPrefix(cs[1], tail);
  }

  lemma AbsOfTwo(cs: seq<string>, tail: string)
    requires |cs| >= 2 && cs[0] == "ifs" && tail == if |cs| == 2 then "" else Abs(cs[2..])
    ensures Abs(cs) == "/ifs" + (SLASH + cs[1] + tail)
  {
    assert cs[1..][1..] == cs[2..];
    assert Join(cs[1..], SLASH) == cs[1] + tail;
    assert SLASH + ("ifs" + SLASH + (cs[1] + tail)) == "/ifs" + (SLASH + cs[1] + tail);
  }

  lemma SystemPrefix(c: string, tail: string)
    requires tail == "" || tail[0] == '/'
    ensures HasPrefix("/ifs" + (SLASH + c + tail), "/ifs/.snapshot") <==> HasPrefix(c, ".snapshot")
  {
    var s := "/ifs" + (SLASH + c + tail);
    if HasPrefix(c, ".snapshot") {
      assert s[..14] == "/ifs" + SLASH + c[..9];
    }
    if HasPrefix(s, "/ifs/.snapshot") {
      forall k | 0 <= k < 9 ensures (SLASH + c + tail)[k + 1] == ".snapshot"[k] {
        assert s[k + 5] == s[..14][k + 5] == "/ifs/.snapshot"[k + 5];
      }
      ShortComponent(c, tail);
      assert c[..9] == ".snapshot";
    }
  }

  /** A volume `vol` in directory `mid` of a zone whose path has components `zone`. */
  datatype Source = Source(zone: seq<string>, mid: seq<string>, vol: string, snapshot: string)

  ghost predicate Valid(x: Source) {
    AllPlain(x.zone) && AllPlain(x.mid) && Plain(x.vol) && Plain(x.snapshot) && x.zone != [] && x.zone[0] == "ifs"
    && (|x.zone| > 1 ==> x.zone[1] != SNAPSHOT_DIR)
  }

  function VolumePath(x: Source): string { Abs(x.zone + x.mid + [x.vol]) }

  /** What follows the zone path in the documented layout
      `<zone path>/.snapshot/<snapshot>/<volume path inside the zone>`. */
  function Tail(x: Source): seq<string> { [SNAPSHOT_DIR, x.snapshot] + x.mid + [x.vol] }

  function SnapshotPath(x: Source): string { Abs(x.zone + Tail(x)) }

  lemma PlainParts(x: Source)
    requires Valid(x)
    ensures AllPlain(Tail(x)) && AllPlain(x.zone + Tail(x))
    ensures AllPlain(x.zone + x.mid) && AllPlain(x.zone + x.mid + [x.vol])
  {
  }

  /** Joining a base path with further plain components, or with none. */
  lemma JoinUnderRoot(base: string, cs: seq<string>, ms: seq<string>)
    requires AllPlain(cs) && AllPlain(ms) && (base == Abs(cs) || (|cs| == 1 && base == cs[0]))
    ensures JoinPath([SLASH, base, Join(ms, SLASH)]) == Abs(cs + ms)
  {
    var remain := Join(ms, SLASH);
    JoinThree(SLASH, base, remain);
    TwoSlashes(base, remain);
    CompsAppend(SLASH + SLASH + base, remain);
    CompsUnderRoot(base, cs);
    CleanJoined(cs, ms);
  }

  lemma TwoSlashes(base: string, remain: string)
    ensures var text := SLASH + SLASH + (base + SLASH + remain);
            text == SLASH + SLASH + base + SLASH + remain && text != "" && text[0] == '/'
  {
  }

  lemma CleanJoined(cs: seq<string>, ms: seq<string>)
    requires AllPlain(ms)
    ensures CleanParts(Split(Join(ms, SLASH), SLASH), true, cs) == cs + ms
  {
    if ms == [] {
      SplitPlain("");
      assert cs + ms == cs;
    } else {
      assert FreeOf(ms, '/');
      SplitAfterJoinChar(ms, '/');
      CleanPartsOfPlain(ms, true, cs);
    }
  }

  lemma CompsUnderRoot(base: string, cs: seq<string>)
    requires AllPlain(cs) && (base == Abs(cs) || (|cs| == 1 && base == cs[0]))
    ensures Comps(SLASH + SLASH + base) == cs
  {
    CompsAppend(SLASH, base);
    CleanAbs([]);
    assert Abs([]) == SLASH;
    if base == Abs(cs) {
      CleanAbs(cs);
    } else {
      SplitPlain(base);
      CleanPartsOfPlain(cs, true, []);
      assert cs == [base];
    }
  }

  /** The System zone, and any other zone based at /ifs. */
  lemma SystemLayout(x: Source)
    requires Valid(x) && |x.zone| == 1
    ensures GetSnapshotIsiPathComponents(SnapshotPath(x), Abs(x.zone))
            == Some(Components(Abs(x.zone + x.mid), x.snapshot, x.vol))
  {
    PlainParts(x);
    SplitAbs(x.zone + Tail(x));
    var dirs := [""] + (x.zone + Tail(x));
    assert dirs == ["", "ifs", SNAPSHOT_DIR, x.snapshot] + x.mid + [x.vol];
    assert dirs[4..|dirs| - 1] == x.mid;
    JoinUnderRoot("ifs", x.zone, x.mid);
  }

  /** The text after the zone path. */
  lemma SplitByZone(x: Source)
    requires Valid(x)
    ensures SnapshotPath(x) == Abs(x.zone) + Abs(Tail(x))
    ensures Split(SnapshotPath(x), Abs(x.zone)) == [""] + Split(Abs(Tail(x)), Abs(x.zone))
  {
    var z, r := Abs(x.zone), Abs(Tail(x));
    JoinAppend(x.zone, Tail(x), SLASH);
    assert SnapshotPath(x) == z + r;
    assert (z + r)[0..|z|] == z;
    IndexIsLeast(z + r, z, 0);
    assert (z + r)[|z|..] == r;
  }

  lemma ZoneBranch(x: Source)
    requires Valid(x) && |x.zone| > 1
    ensures GetSnapshotIsiPathComponents(SnapshotPath(x), Abs(x.zone))
            == FromZoneRemainder(Split(Abs(Tail(x)), Abs(x.zone))[0], Abs(x.zone), x.vol)
  {
    PlainParts(x);
    SplitAbs(x.zone + Tail(x));
    SplitByZone(x);
    var dirs := [""] + (x.zone + Tail(x));
    assert dirs[2] == x.zone[1] && dirs[|dirs| - 1] == x.vol;
  }

  lemma ZoneOnce(x: Source)
    requires Valid(x) && |x.zone| > 1
    ensures FromZoneRemainder(Abs(Tail(x)), Abs(x.zone), x.vol)
            == Some(Components(Abs(x.zone + x.mid), x.snapshot, x.vol))
  {
    PlainParts(x);
    SplitAbs(Tail(x));
    var directories := [""] + Tail(x);
    assert directories[3..|directories| - 1] == x.mid && directories[2] == x.snapshot;
    JoinUnderRoot(Abs(x.zone), x.zone, x.mid);
  }

  /** A zone with a base path of its own: the parse is right exactly when the zone path does not occur again
      behind itself. */
  lemma ZoneLayout(x: Source)
    requires Valid(x) && |x.zone| > 1
    ensures GetSnapshotIsiPathComponents(SnapshotPath(x), Abs(x.zone))
              == Some(Components(Abs(x.zone + x.mid), x.snapshot, x.vol))
            <==> !Contains(Abs(Tail(x)), Abs(x.zone))
  {
    ZoneBranch(x);
    NotContained(Abs(Tail(x)), Abs(x.zone));
    if Index(Abs(Tail(x)), Abs(x.zone)) == -1 {
      ZoneOnce(x);
    } else {
      ZoneRepeated(x);
    }
  }

  /** Cutting a text where a path starts. */
  lemma CutAtPath(r: string, z: string, i: int)
    requires z != "" && z[0] == '/' && At(r, z, i)
    ensures r == r[..i] + SLASH + r[i + 1..] && HasPrefix(r[i + 1..], z[1..])
  {
    AtChar(r, z, i, 0);
    assert r[i..i + |z|] == z;
    assert r[i + 1..][..|z| - 1] == r[i..i + |z|][1..];
  }

  /** If the zone path occurs again, the text is cut there: at least two components are missing. */
  lemma CutTail(x: Source)
    requires Valid(x) && |x.zone| > 1 && Index(Abs(Tail(x)), Abs(x.zone)) != -1
    ensures var d := Split(Abs(Tail(x))[..Index(Abs(Tail(x)), Abs(x.zone))], SLASH);
            |d| + 2 <= |Tail(x)| + 1 && d == ([""] + Tail(x))[..|d|]
  {
    var z, r := Abs(x.zone), Abs(Tail(x));
    var i := Index(r, z);
    CutAtPath(r, z, i);
    SplitAtChar(r[..i], '/', r[i + 1..]);
    PlainParts(x);
    SplitAbs(Tail(x));
    TwoTokens(x, z[1..], r[i + 1..]);
  }

  lemma TwoTokens(x: Source, inner: string, rest: string)
    requires Valid(x) && |x.zone| > 1 && inner == Abs(x.zone)[1..] && HasPrefix(rest, inner)
    ensures |Split(rest, SLASH)| >= 2
  {
    var cs := x.zone;
    assert inner == Join(cs, SLASH);
    assert inner == cs[0] + SLASH + Join(cs[1..], SLASH);
    var k := |cs[0]|;
    assert rest[..|inner|][k..k + 1] == SLASH;
    assert rest[k..k + 1] == SLASH;
    IndexIsLeast(rest, SLASH, k);
  }

  lemma ZoneRepeated(x: Source)
    requires Valid(x) && |x.zone| > 1 && Index(Abs(Tail(x)), Abs(x.zone)) != -1
    ensures FromZoneRemainder(Split(Abs(Tail(x)), Abs(x.zone))[0], Abs(x.zone), x.vol)
            != Some(Components(Abs(x.zone + x.mid), x.snapshot, x.vol))
  {
    var z, r := Abs(x.zone), Abs(Tail(x));
    PlainParts(x);
    CutTail(x);
    var d := Split(r[..Index(r, z)], SLASH);
    if |d| > 3 {
      var ms := d[3..|d| - 1];
      assert ms == x.mid[..|d| - 4];
      ShorterPath(x, ms);
    } else if |d| == 3 {
      DifferentLengths(x.zone, x.zone + x.mid);
    }
  }

  lemma ShorterPath(x: Source, ms: seq<string>)
    requires Valid(x) && |ms| < |x.mid| && AllPlain(ms)
    ensures JoinPath([SLASH, Abs(x.zone), Join(ms, SLASH)]) != Abs(x.zone + x.mid)
  {
    JoinUnderRoot(Abs(x.zone), x.zone, ms);
    DifferentLengths(x.zone + ms, x.zone + x.mid);
  }

  lemma DifferentLengths(a: seq<string>, b: seq<string>)
    requires AllPlain(a) && AllPlain(b) && |a| != |b|
    ensures Abs(a) != Abs(b)
  {
    CleanAbs(a);
    CleanAbs(b);
  }

  /** Create and delete locate the same tracking directory: the one beside the source volume, named after
      the snapshot, in every zone layout where the zone path is not repeated. */
  lemma SameTrackingDirectory(x: Source)
    requires Valid(x)
    requires |x.zone| > 1 ==> !Contains(Abs(Tail(x)), Abs(x.zone))
    ensures GetSnapshotIsiPathComponents(SnapshotPath(x), Abs(x.zone)).Some?
    ensures var c := GetSnapshotIsiPathComponents(SnapshotPath(x), Abs(x.zone)).value;
            && c.isiPath == Dir(VolumePath(x))
            && GetSnapshotTrackingDirName(c.snapshotName) == GetSnapshotTrackingDirName(x.snapshot)
            && c.srcVolName == x.vol
  {
    PlainParts(x);
    DirOfAbs(x.zone + x.mid, x.vol);
    if |x.zone| == 1 { SystemLayout(x); } else { ZoneLayout(x); }
  }

  lemma MarkedInside(z: string, r: string)
    requires HasPrefix(r, "/.snapshot")
    ensures Index(z + r, "/.snapshot") != -1
    ensures z == "/ifs" ==> HasPrefix(z + r, "/ifs/.snapshot")
  {
    assert (z + r)[|z|..|z| + 10] == r[..10];
    IndexIsLeast(z + r, "/.snapshot", |z|);
    if z == "/ifs" { assert (z + r)[..14] == z + r[..10]; }
  }

  /** The export of such a path is recognised as a read-only volume of a snapshot. */
  lemma SnapshotPathIsRecognised(x: Source, accessZone: string)
    requires Valid(x) && (accessZone == "System" ==> |x.zone| == 1)
    ensures IsROVolumeFromSnapshot(SnapshotPath(x), accessZone)
  {
    SplitByZone(x);
    PlainParts(x);
    var tail := Tail(x);
    assert Join(tail, SLASH) == SNAPSHOT_DIR + SLASH + Join(tail[1..], SLASH);
    MarkedInside(Abs(x.zone), Abs(tail));
  }
}
