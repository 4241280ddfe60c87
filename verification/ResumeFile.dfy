/** The in-mount state file that lets an interrupted ownership change resume (service/node.go). */
module ResumeFile {
  import opened Strings

  const NEWLINE := "\n"

  function Lines(paths: seq<string>): string {
    if paths == [] then "" else paths[0] + NEWLINE + Lines(paths[1..])
  }

  /** What `writeState` writes: a time stamp, the marker, then one recorded path per line. */
  function Render(stamp: string, marker: string, paths: seq<string>): string {
    stamp + NEWLINE + marker + NEWLINE + Lines(paths)
  }

  function NonEmptyLines(lines: seq<string>): (paths: set<string>)
    ensures forall p :: p in paths <==> p in lines && p != ""
  {
    set p | p in lines && p != ""
  }

  /** What a new attempt reads back; `recent` says that the stamp parses and is at most thirty minutes old. */
  function Load(data: string, marker: string, recent: bool): (paths: set<string>) {
    if data == "" then {}
    else
      var lines := Split(TrimSpace(data), NEWLINE);
      if |lines| >= 2 && recent && lines[1] == marker then NonEmptyLines(lines[2..]) else {}
  }

  /** A header line: time stamps and markers hold no white space. */
  ghost predicate HeaderText(s: string) {
    s != "" && forall k :: 0 <= k < |s| ==> !IsSpace(s[k])
  }

  ghost predicate Distinct(paths: seq<string>) {
    forall i, j :: 0 <= i < j < |paths| ==> paths[i] != paths[j]
  }

  /** The condition a caller can check: one path per line survives the trip, and trimming the whole file
      touches only the last recorded path. */
  ghost predicate Recordable(paths: seq<string>) {
    && (forall k :: 0 <= k < |paths| ==> paths[k] != "" && '\n' !in paths[k])
    && (paths != [] ==> !EndsInSpace(paths[|paths| - 1]))
  }

  lemma {:induction false} LinesAreJoin(paths: seq<string>)
    requires paths != []
    ensures Lines(paths) == Join(paths, NEWLINE) + NEWLINE
  {
    if |paths| > 1 { LinesAreJoin(paths[1..]); }
  }

  lemma RenderIsJoin(stamp: string, marker: string, paths: seq<string>)
    ensures Render(stamp, marker, paths) == Join([stamp, marker] + paths, NEWLINE) + NEWLINE
  {
    var all := [stamp, marker] + paths;
    LinesAreJoin(all);
    assert all[1..] == [marker] + paths && all[1..][1..] == paths;
    assert Lines(all) == stamp + NEWLINE + (marker + NEWLINE + Lines(paths));
  }

  /** Cutting a joined text anywhere leaves whole leading fields and one truncated field. */
  lemma {:induction false} SplitOfPrefix(parts: seq<string>, p: string)
    requires parts != [] && FreeOf(parts, '\n') && p <= Join(parts, NEWLINE)
    ensures var t := Split(p, NEWLINE);
            |t| <= |parts| && forall k :: 0 <= k < |t| - 1 ==> t[k] == parts[k]
  {
    var joined := Join(parts, NEWLINE);
    var i := Index(p, NEWLINE);
    if i != -1 {
      assert |parts| > 1 by {
        AtChar(p, NEWLINE, i, 0);
        assert '\n' in joined;
      }
      var rest := Join(parts[1..], NEWLINE);
      assert joined == parts[0] + NEWLINE + rest;
      FirstNewline(parts[0], rest, p);
      assert p[i + 1..] <= rest;
      assert FreeOf(parts[1..], '\n');
      SplitOfPrefix(parts[1..], p[i + 1..]);
      var t := Split(p, NEWLINE);
      assert t == [p[..i]] + Split(p[i + 1..], NEWLINE);
      forall k | 0 <= k < |t| - 1 ensures t[k] == parts[k] {
        if k > 0 { assert t[k] == Split(p[i + 1..], NEWLINE)[k - 1] == parts[1..][k - 1]; }
      }
    }
  }

  lemma FirstNewline(first: string, rest: string, p: string)
    requires '\n' !in first && p <= first + NEWLINE + rest && Index(p, NEWLINE) != -1
    ensures Index(p, NEWLINE) == |first| && p[..|first|] == first
  {
    var i := Index(p, NEWLINE);
    var s := first + NEWLINE + rest;
    assert forall k :: 0 <= k < |first| && k < |p| ==> p[k] == first[k];
    AtChar(p, NEWLINE, i, 0);
    assert p[..|first|] == s[..|first|] == first;
    assert p[|first|] == '\n';
    assert p[|first|..|first| + 1] == NEWLINE;
    IndexIsLeast(p, NEWLINE, |first|);
  }

  lemma {:induction false} TrimRightKeeps(s: string)
    ensures s != "" && !IsSpace(s[0]) ==> TrimRight(s) != "" && TrimSpace(s) == TrimRight(s)
  {
    if EndsInSpace(s) {
      TrimRightKeeps(s[..|s| - 1]);
    }
  }

  /** The text the reader splits: a newline-trimmed prefix of the joined lines. */
  lemma TrimmedRender(stamp: string, marker: string, paths: seq<string>)
    requires HeaderText(stamp) && HeaderText(marker)
    ensures var data := Render(stamp, marker, paths); var joined := Join([stamp, marker] + paths, NEWLINE);
            && data != "" && TrimSpace(data) <= joined && TrimSpace(data) != "" && !EndsInSpace(TrimSpace(data))
            && (!EndsInSpace(joined) ==> TrimSpace(data) == joined)
  {
    var data, joined := Render(stamp, marker, paths), Join([stamp, marker] + paths, NEWLINE);
    RenderIsJoin(stamp, marker, paths);
    assert data[0] == stamp[0];
    TrimRightKeeps(data);
    assert IsSpace('\n') && EndsInSpace(data);
    assert data[..|data| - 1] == joined;
  }

  lemma {:induction false} JoinEndsLikeLast(parts: seq<string>)
    requires parts != [] && parts[|parts| - 1] != ""
    ensures var joined := Join(parts, NEWLINE); var last := parts[|parts| - 1];
            joined != "" && joined[|joined| - 1] == last[|last| - 1]
  {
    if |parts| > 1 { JoinEndsLikeLast(parts[1..]); }
  }

  lemma HeaderIsOneLine(s: string)
    requires HeaderText(s)
    ensures '\n' !in s
  {
    assert IsSpace('\n');
  }

  lemma HeaderAndPathsFree(stamp: string, marker: string, paths: seq<string>)
    requires HeaderText(stamp) && HeaderText(marker)
    requires forall k :: 0 <= k < |paths| ==> '\n' !in paths[k]
    ensures FreeOf([stamp, marker] + paths, '\n')
  {
    HeaderIsOneLine(stamp);
    HeaderIsOneLine(marker);
    var all := [stamp, marker] + paths;
    forall k | 0 <= k < |all| ensures '\n' !in all[k] {
      if k >= 2 { assert all[k] == paths[k - 2]; }
    }
  }

  lemma RecordableSurvives(stamp: string, marker: string, paths: seq<string>)
    requires HeaderText(stamp) && HeaderText(marker) && Recordable(paths)
    ensures Load(Render(stamp, marker, paths), marker, true) == set p | p in paths
  {
    var all := [stamp, marker] + paths;
    var joined := Join(all, NEWLINE);
    TrimmedRender(stamp, marker, paths);
    JoinEndsLikeLast(all);
    assert !EndsInSpace(joined);
    HeaderAndPathsFree(stamp, marker, paths);
    SplitAfterJoinChar(all, '\n');
    assert all[2..] == paths;
  }

  lemma NewlinePathIsLost(data: string, marker: string, p: string)
    requires '\n' in p
    ensures p !in Load(data, marker, true)
  {
    var lines := Split(TrimSpace(data), NEWLINE);
    forall k | 0 <= k < |lines| ensures '\n' !in lines[k] {
      TokensAreSeparatorFree(TrimSpace(data), NEWLINE, k);
      SealedByOneChar(lines[k], '\n');
      NotContained(lines[k], NEWLINE);
    }
  }

  lemma TrailingSpaceIsLost(stamp: string, marker: string, paths: seq<string>)
    requires HeaderText(stamp) && HeaderText(marker) && Distinct(paths)
    requires forall k :: 0 <= k < |paths| ==> '\n' !in paths[k]
    requires paths != [] && EndsInSpace(paths[|paths| - 1])
    ensures paths[|paths| - 1] !in Load(Render(stamp, marker, paths), marker, true)
  {
    var all := [stamp, marker] + paths;
    var last := paths[|paths| - 1];
    var text := TrimSpace(Render(stamp, marker, paths));
    TrimmedRender(stamp, marker, paths);
    HeaderAndPathsFree(stamp, marker, paths);
    SplitOfPrefix(all, text);
    var t := Split(text, NEWLINE);
    LastTokenTrimmed(text);
    forall k | 2 <= k < |t| ensures t[k] != last {
      if k < |t| - 1 { assert t[k] == all[k] == paths[k - 2]; }
    }
  }

  lemma {:induction false} LastTokenTrimmed(text: string)
    requires !EndsInSpace(text)
    ensures var t := Split(text, NEWLINE); !EndsInSpace(t[|t| - 1])
    decreases |text|
  {
    var i := Index(text, NEWLINE);
    if i != -1 {
      var rest := text[i + 1..];
      assert text[i] == '\n' by { assert At(text, NEWLINE, i); AtChar(text, NEWLINE, i, 0); }
      assert rest != "" && rest[|rest| - 1] == text[|text| - 1];
      LastTokenTrimmed(rest);
      var t := Split(rest, NEWLINE);
      assert Split(text, NEWLINE) == [text[..i]] + t;
      assert ([text[..i]] + t)[|t|] == t[|t| - 1];
    }
  }

  /** Reading back what was written gives exactly the recorded set if and only if every recorded path is
      a non-empty single line and the last one does not end in white space. */
  lemma ResumeFileRoundTrip(stamp: string, marker: string, paths: seq<string>)
    requires HeaderText(stamp) && HeaderText(marker) && Distinct(paths)
    ensures Load(Render(stamp, marker, paths), marker, true) == (set p | p in paths) <==> Recordable(paths)
  {
    var data := Render(stamp, marker, paths);
    if Recordable(paths) {
      RecordableSurvives(stamp, marker, paths);
    } else if k :| 0 <= k < |paths| && '\n' in paths[k] {
      NewlinePathIsLost(data, marker, paths[k]);
      assert paths[k] in set p | p in paths;
    } else if k :| 0 <= k < |paths| && paths[k] == "" {
      assert "" in set p | p in paths;
      assert "" !in Load(data, marker, true);
    } else {
      TrailingSpaceIsLost(stamp, marker, paths);
      assert paths[|paths| - 1] in set p | p in paths;
    }
  }

  /** The failing family is real: recording the single file named "a", newline, "b" makes the next attempt
      believe that the unrelated path "a" is done. */
  lemma NewlinePathMarksAnotherDone(stamp: string, marker: string)
    requires HeaderText(stamp) && HeaderText(marker)
    ensures "a" in Load(Render(stamp, marker, ["a\nb"]), marker, true)
  {
    var data := Render(stamp, marker, ["a\nb"]);
    assert Lines(["a\nb"]) == "a\nb\n";
    assert Lines(["a", "b"]) == "a\nb\n" by {
      assert ["a", "b"][1..] == ["b"];
      assert Lines(["b"]) == "b\n";
    }
    assert data == Render(stamp, marker, ["a", "b"]);
    RecordableSurvives(stamp, marker, ["a", "b"]);
  }
}
