/** Go's `path` package and the path helpers of the driver (common/utils/powerscale-fs). */
module Paths {
  import opened Strings

  const SLASH := "/"

  /** A component that cleaning keeps as it is. */
  predicate Plain(c: string) { c != "" && '/' !in c && c != "." && c != ".." }

  ghost predicate AllPlain(cs: seq<string>) { forall k :: 0 <= k < |cs| ==> Plain(cs[k]) }

  /** The absolute path with the given components. */
  function Abs(cs: seq<string>): (p: string)
    ensures p != "" && p[0] == '/'
  {
    SLASH + Join(cs, SLASH)
  }

  /** The loop of `path.Clean` over components, `acc` being the components kept so far. */
  function CleanParts(parts: seq<string>, rooted: bool, acc: seq<string>): seq<string> {
    if parts == [] then acc
    else
      var p := parts[0];
      var acc' :=
        if p == "" || p == "." then acc
        else if p != ".." then acc + [p]
        else if acc != [] && acc[|acc| - 1] != ".." then acc[..|acc| - 1]
        else if rooted then acc
        else acc + [p];
      CleanParts(parts[1..], rooted, acc')
  }

  /** Go's `path.Clean`. */
  function Clean(p: string): string {
    if p == "" then "."
    else if p[0] == '/' then Abs(CleanParts(Split(p, SLASH), true, []))
    else
      var cs := CleanParts(Split(p, SLASH), false, []);
      if cs == [] then "." else Join(cs, SLASH)
  }

  /** Go's `path.Join`: leading empty elements are dropped, the rest is joined with slashes and cleaned. */
  function JoinPath(elems: seq<string>): string {
    if elems == [] then ""
    else if elems[0] == "" then JoinPath(elems[1..])
    else Clean(Join(elems, SLASH))
  }

  function LastSlash(s: string): (i: int)
    ensures -1 <= i < |s|
    ensures i >= 0 ==> s[i] == '/'
    ensures forall j :: i < j < |s| ==> s[j] != '/'
  {
    if s == "" then -1 else if s[|s| - 1] == '/' then |s| - 1 else LastSlash(s[..|s| - 1])
  }

  /** Go's `path.Dir`. */
  function Dir(p: string): string { Clean(p[..LastSlash(p) + 1]) }

  // ---- helpers of the driver ----

  function GetPathForVolume(isiPath: string, volName: string): string {
    if isiPath == "" then JoinPath(["/ifs/", volName])
    else if isiPath[|isiPath| - 1] == '/' then JoinPath([isiPath, volName])
    else JoinPath([isiPath, SLASH, volName])
  }

  function WithoutTrailingSlash(p: string): string
    requires p != ""
  {
    if LastSlash(p) == |p| - 1 then p[..|p| - 1] else p
  }

  function GetIsiPathFromExportPath(exportPath: string): string
    requires exportPath != ""
  {
    var p := WithoutTrailingSlash(exportPath);
    p[..LastSlash(p) + 1]
  }

  function GetVolumeNameFromExportPath(exportPath: string): string
    requires exportPath != ""
  {
    var p := WithoutTrailingSlash(exportPath);
    p[LastSlash(p) + 1..]
  }

  // ---- cleaning ----

  /** The cleaned components of an absolute path. */
  function Comps(p: string): seq<string> { CleanParts(Split(p, SLASH), true, []) }

  lemma {:induction false} CleanPartsAppend(a: seq<string>, b: seq<string>, rooted: bool, acc: seq<string>)
    ensures CleanParts(a + b, rooted, acc) == CleanParts(b, rooted, CleanParts(a, rooted, acc))
    decreases |a|
  {
    if a == [] {
      assert a + b == b;
    } else {
      assert (a + b)[0] == a[0] && (a + b)[1..] == a[1..] + b;
      var p := a[0];
      var acc' :=
        if p == "" || p == "." then acc
        else if p != ".." then acc + [p]
        else if acc != [] && acc[|acc| - 1] != ".." then acc[..|acc| - 1]
        else if rooted then acc
        else acc + [p];
      CleanPartsAppend(a[1..], b, rooted, acc');
    }
  }

  lemma {:induction false} CleanPartsOfPlain(cs: seq<string>, rooted: bool, acc: seq<string>)
    requires AllPlain(cs)
    ensures CleanParts(cs, rooted, acc) == acc + cs
    decreases |cs|
  {
    if cs != [] {
      assert Plain(cs[0]);
      CleanPartsOfPlain(cs[1..], rooted, acc + [cs[0]]);
      assert acc + [cs[0]] + cs[1..] == acc + cs;
    }
  }

  lemma {:induction false} CleanPartsArePlain(parts: seq<string>, acc: seq<string>)
    requires AllPlain(acc) && FreeOf(parts, '/')
    ensures AllPlain(CleanParts(parts, true, acc))
    decreases |parts|
  {
    if parts != [] {
      var p := parts[0];
      assert '/' !in p;
      var acc' :=
        if p == "" || p == "." then acc
        else if p != ".." then acc + [p]
        else if acc != [] && acc[|acc| - 1] != ".." then acc[..|acc| - 1]
        else acc;
      assert AllPlain(acc');
      assert FreeOf(parts[1..], '/');
      CleanPartsArePlain(parts[1..], acc');
    }
  }

  lemma SplitIsSlashFree(p: string)
    ensures FreeOf(Split(p, SLASH), '/')
  {
    var t := Split(p, SLASH);
    forall k | 0 <= k < |t| ensures '/' !in t[k] {
      TokensAreSeparatorFree(p, SLASH, k);
      SealedByOneChar(t[k], '/');
      NotContained(t[k], SLASH);
    }
  }

  lemma CompsArePlain(p: string)
    ensures AllPlain(Comps(p))
  {
    SplitIsSlashFree(p);
    CleanPartsArePlain(Split(p, SLASH), []);
  }

  lemma SplitPlain(name: string)
    requires '/' !in name
    ensures Split(name, SLASH) == [name]
  {
    SealedByOneChar(name, '/');
  }

  lemma SplitAbs(cs: seq<string>)
    requires cs != [] && AllPlain(cs)
    ensures Split(Abs(cs), SLASH) == [""] + cs
  {
    var all := [""] + cs;
    assert FreeOf(all, '/');
    SplitAfterJoinChar(all, '/');
    assert all[1..] == cs;
    assert Join(all, SLASH) == "" + SLASH + Join(cs, SLASH);
    assert "" + SLASH == SLASH;
  }

  lemma CleanAbs(cs: seq<string>)
    requires AllPlain(cs)
    ensures Comps(Abs(cs)) == cs && Clean(Abs(cs)) == Abs(cs)
  {
    if cs == [] {
      assert Abs(cs) == "/";
      SplitAtChar("", '/', "");
      assert "" + ['/'] + "" == "/";
      SplitPlain("");
      assert Split("/", SLASH) == ["", ""];
      CleanPartsAppend([""], [""], true, []);
      assert [""] + [""] == ["", ""];
    } else {
      SplitAbs(cs);
      CleanPartsAppend([""], cs, true, []);
      CleanPartsOfPlain(cs, true, []);
      assert [] + cs == cs;
    }
  }

  /** Appending a further part to an absolute path appends its cleaned components. */
  lemma CompsAppend(p: string, rest: string)
    ensures Comps(p + SLASH + rest) == CleanParts(Split(rest, SLASH), true, Comps(p))
  {
    SplitAtChar(p, '/', rest);
    CleanPartsAppend(Split(p, SLASH), Split(rest, SLASH), true, []);
  }

  lemma CompsAppendPlain(p: string, name: string)
    requires Plain(name)
    ensures Comps(p + SLASH + name) == Comps(p) + [name]
    ensures Comps(p + SLASH) == Comps(p)
  {
    CompsAppend(p, name);
    SplitPlain(name);
    CleanPartsOfPlain([name], true, Comps(p));
    CompsAppend(p, "");
    SplitPlain("");
    assert p + SLASH + "" == p + SLASH;
    assert CleanParts([""], true, Comps(p)) == Comps(p);
  }

  // ---- volume paths ----

  predicate Rooted(isiPath: string) { isiPath == "" || isiPath[0] == '/' }

  /** The components of the configured base path; an empty one stands for /ifs. */
  function BaseComps(isiPath: string): seq<string> { if isiPath == "" then Comps("/ifs/") else Comps(isiPath) }

  /** What the dot components mean below a rooted path: one goes nowhere, two go up, at the root nowhere. */
  lemma CompsOfDots(p: string)
    ensures Comps(p + SLASH + ".") == Comps(p)
    ensures Comps(p + SLASH + "..") == if Comps(p) == [] then [] else Comps(p)[..|Comps(p)| - 1]
  {
    CompsAppend(p, ".");
    CompsAppend(p, "..");
    SplitPlain(".");
    SplitPlain("..");
    CompsArePlain(p);
    DotParts(Comps(p));
  }

  lemma DotParts(acc: seq<string>)
    requires AllPlain(acc)
    ensures CleanParts(["."], true, acc) == acc
    ensures CleanParts([".."], true, acc) == if acc == [] then [] else acc[..|acc| - 1]
  {
    assert ["."][1..] == [] && [".."][1..] == [];
  }

  lemma JoinTwo(a: string, b: string)
    requires a != ""
    ensures JoinPath([a, b]) == Clean(a + SLASH + b)
  {
    assert [a, b][1..] == [b] && Join([b], SLASH) == b;
    assert Join([a, b], SLASH) == a + SLASH + b;
  }

  lemma JoinThree(a: string, b: string, c: string)
    requires a != ""
    ensures JoinPath([a, b, c]) == Clean(a + SLASH + (b + SLASH + c))
  {
    assert [b, c][1..] == [c] && Join([c], SLASH) == c;
    assert [a, b, c][1..] == [b, c] && Join([b, c], SLASH) == b + SLASH + c;
    assert Join([a, b, c], SLASH) == a + SLASH + (b + SLASH + c);
  }

  /** However the base path is written, the volume's path is its cleaned components plus the name. */
  lemma PathForVolume(isiPath: string, name: string)
    requires Rooted(isiPath) && Plain(name)
    ensures GetPathForVolume(isiPath, name) == Abs(BaseComps(isiPath) + [name])
    ensures AllPlain(BaseComps(isiPath) + [name])
  {
    var base := if isiPath == "" then "/ifs/" else isiPath;
    CompsArePlain(base);
    if isiPath == "" || isiPath[|isiPath| - 1] == '/' {
      JoinTwo(base, name);
      CleanOneMore(base, name);
    } else {
      JoinThree(base, SLASH, name);
      CompsAppendPlain(base, name);
      CompsAppendPlain(base + SLASH, name);
      CleanOneMore(base + SLASH + SLASH, name);
      ThreeSlashes(base, name);
    }
  }

  lemma ThreeSlashes(base: string, name: string)
    ensures base + SLASH + (SLASH + SLASH + name) == base + SLASH + SLASH + SLASH + name
  {
  }

  lemma CleanOneMore(p: string, name: string)
    requires p != "" && p[0] == '/' && Plain(name)
    ensures Clean(p + SLASH + name) == Abs(Comps(p) + [name])
  {
    CompsAppendPlain(p, name);
    assert (p + SLASH + name)[0] == '/';
  }

  lemma LastSlashIs(s: string, i: nat)
    requires i < |s| && s[i] == '/' && '/' !in s[i + 1..]
    ensures LastSlash(s) == i
  {
    forall j | i < j < |s| ensures s[j] != '/' { assert s[i + 1..][j - i - 1] == s[j]; }
  }

  lemma LastSlashBefore(p: string, name: string)
    requires name != "" && '/' !in name
    ensures LastSlash(p + SLASH + name) == |p|
  {
    var s := p + SLASH + name;
    assert s[|p|] == '/' && s[|p| + 1..] == name;
    LastSlashIs(s, |p|);
  }

  lemma AbsSnoc(cs: seq<string>, name: string)
    requires AllPlain(cs) && Plain(name)
    ensures cs != [] ==> Abs(cs + [name]) == Abs(cs) + SLASH + name
    ensures cs == [] ==> Abs(cs + [name]) == "" + SLASH + name
  {
    if cs != [] { JoinAppend(cs, [name], SLASH); }
  }

  /** Taking an export path apart and putting it together again gives the same path, so creation and
      deletion mean the same directory. */
  lemma ExportPathRoundTrip(cs: seq<string>, name: string)
    requires AllPlain(cs) && Plain(name)
    ensures var p := Abs(cs + [name]);
            && GetVolumeNameFromExportPath(p) == name
            && GetPathForVolume(GetIsiPathFromExportPath(p), name) == p
            && Rooted(GetIsiPathFromExportPath(p)) && BaseComps(GetIsiPathFromExportPath(p)) == cs
  {
    var p := Abs(cs + [name]);
    AbsSnoc(cs, name);
    var parent := if cs == [] then "" else Abs(cs);
    assert p == parent + SLASH + name;
    LastSlashBefore(parent, name);
    var base := GetIsiPathFromExportPath(p);
    assert base == parent + SLASH;
    CompsAppendPlain(parent, name);
    CleanAbs(cs);
    if cs == [] {
      CleanAbs([]);
      assert base == "/" == Abs([]);
    }
    PathForVolume(base, name);
  }

  lemma DirOfAbs(cs: seq<string>, name: string)
    requires AllPlain(cs) && Plain(name)
    ensures Dir(Abs(cs + [name])) == Abs(cs)
  {
    AbsSnoc(cs, name);
    var parent := if cs == [] then "" else Abs(cs);
    LastSlashBefore(parent, name);
    assert (parent + SLASH + name)[..|parent| + 1] == parent + SLASH;
    CompsAppendPlain(parent, name);
    CleanAbs(cs);
    if cs == [] { assert parent + SLASH == "/" == Abs([]); }
  }
}
