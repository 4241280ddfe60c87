/** What a state file can say about names that the file format does not quote (service/node.go): its lines
    are pieces of the recorded names. */
module ResumePieces {
  import opened Strings
  import opened ResumeFile

  /** `p` is the name itself, one of its lines, or one of its lines without trailing white space. */
  ghost predicate Piece(p: string, name: string) {
    p == name || (p != "" && exists t :: t in Split(name, NEWLINE) && (p == t || p == TrimRight(t)))
  }

  // ---- splitting and trimming ----

  lemma {:induction false} SplitSnoc(s: string, c: char)
    ensures var t := Split(s, NEWLINE);
            Split(s + [c], NEWLINE) == if c == '\n' then t + [""] else AppendToLast(t, c)
    decreases |s|
  {
    if c == '\n' {
      SplitAtChar(s, '\n', "");
      assert s + [c] + "" == s + [c];
      assert Split("", NEWLINE) == [""] by { SealedByOneChar("", '\n'); }
    } else {
      SealedByOneChar(s, '\n');
      SealedByOneChar(s + [c], '\n');
      var i := Index(s, NEWLINE);
      if i != -1 {
        var head, tail := s[..i], s[i + 1..];
        CutAt(s, NEWLINE, i);
        PrefixBeforeFirst(s, NEWLINE);
        NotContained(head, NEWLINE);
        SealedByOneChar(head, '\n');
        SplitSnoc(tail, c);
        SplitSnocStep(head, tail, c);
      }
    }
  }

  /** Every line but the last is the same, the last one longer by `c`. */
  function AppendToLast(t: seq<string>, c: char): seq<string>
    requires t != []
  {
    t[..|t| - 1] + [t[|t| - 1] + [c]]
  }

  lemma SplitSnocStep(head: string, tail: string, c: char)
    requires '\n' !in head && Split(tail + [c], NEWLINE) == AppendToLast(Split(tail, NEWLINE), c)
    ensures Split(head + NEWLINE + tail + [c], NEWLINE) == AppendToLast(Split(head + NEWLINE + tail, NEWLINE), c)
  {
    assert head + NEWLINE + tail + [c] == head + NEWLINE + (tail + [c]);
    assert Split(head + NEWLINE + (tail + [c]), NEWLINE) == [head] + Split(tail + [c], NEWLINE) by {
      SplitFirst(head, '\n', tail + [c]);
    }
    assert Split(head + NEWLINE + tail, NEWLINE) == [head] + Split(tail, NEWLINE) by { SplitFirst(head, '\n', tail); }
    SnocUnderCons(head, Split(tail, NEWLINE), c);
  }

  lemma SnocUnderCons(head: string, t: seq<string>, c: char)
    requires t != []
    ensures [head] + AppendToLast(t, c) == AppendToLast([head] + t, c)
  {
  }

  /** The lines of a right-trimmed text: whole lines, then one right-trimmed line; what is cut off after it
      is blank. */
  ghost predicate Trims(t: seq<string>, s: seq<string>) {
    && 1 <= |t| <= |s|
    && (forall k :: 0 <= k < |t| - 1 ==> t[k] == s[k])
    && t[|t| - 1] == TrimRight(s[|t| - 1]) && (|t| > 1 ==> t[|t| - 1] != "")
    && (forall k :: |t| <= k < |s| ==> TrimRight(s[k]) == "")
  }

  lemma {:induction false} TrimmedLines(s: string)
    ensures Trims(Split(TrimRight(s), NEWLINE), Split(s, NEWLINE))
    decreases |s|
  {
    if EndsInSpace(s) {
      var s', c := s[..|s| - 1], s[|s| - 1];
      assert s == s' + [c];
      SplitSnoc(s', c);
      TrimmedLines(s');
      TrimsSnoc(Split(TrimRight(s'), NEWLINE), Split(s', NEWLINE), Split(s, NEWLINE), c);
    } else {
      LastTokenTrimmed(s);
      LastTokenNonEmpty(s);
    }
  }

  lemma {:induction false} LastTokenNonEmpty(text: string)
    requires !EndsInSpace(text)
    ensures var t := Split(text, NEWLINE); |t| > 1 ==> t[|t| - 1] != ""
    decreases |text|
  {
    var i := Index(text, NEWLINE);
    if i != -1 {
      var rest := text[i + 1..];
      AtChar(text, NEWLINE, i, 0);
      assert IsSpace('\n') && rest != "" && rest[|rest| - 1] == text[|text| - 1];
      LastTokenNonEmpty(rest);
      var t := Split(rest, NEWLINE);
      assert ([text[..i]] + t)[|t|] == t[|t| - 1];
    }
  }

  lemma TrimSnoc(s: string, c: char)
    requires IsSpace(c)
    ensures TrimRight(s + [c]) == TrimRight(s)
  {
    assert (s + [c])[..|s|] == s;
  }

  /** `s'` has the lines of `s` up to trailing white space, whole where they are not the last, and possibly
      blank ones after them. */
  lemma TrimsFurther(t: seq<string>, s: seq<string>, s': seq<string>)
    requires Trims(t, s) && |s| <= |s'|
    requires forall k :: 0 <= k < |s| - 1 ==> s'[k] == s[k]
    requires TrimRight(s'[|s| - 1]) == TrimRight(s[|s| - 1])
    requires forall k :: |s| <= k < |s'| ==> s'[k] == ""
    ensures Trims(t, s')
  {
    assert TrimRight("") == "";
  }

  lemma TrimsSnoc(t: seq<string>, s: seq<string>, s': seq<string>, c: char)
    requires Trims(t, s) && IsSpace(c)
    requires s' == if c == '\n' then s + [""] else AppendToLast(s, c)
    ensures Trims(t, s')
  {
    TrimSnoc(s[|s| - 1], c);
    TrimsFurther(t, s, s');
  }

  // ---- the lines of a state file ----

  function Tokens(paths: seq<string>): seq<string> {
    if paths == [] then [] else Split(paths[0], NEWLINE) + Tokens(paths[1..])
  }

  lemma {:induction false} TokenOfOne(paths: seq<string>, p: string)
    ensures p in Tokens(paths) <==> exists k :: 0 <= k < |paths| && p in Split(paths[k], NEWLINE)
  {
    if paths != [] {
      TokenOfOne(paths[1..], p);
      if k :| 0 <= k < |paths[1..]| && p in Split(paths[1..][k], NEWLINE) { assert paths[k + 1] == paths[1..][k]; }
      if k :| 0 <= k < |paths| && p in Split(paths[k], NEWLINE) {
        if k > 0 { assert paths[1..][k - 1] == paths[k]; }
      }
    }
  }

  lemma {:induction false} LinesSplit(paths: seq<string>)
    ensures Split(Lines(paths), NEWLINE) == Tokens(paths) + [""]
  {
    if paths == [] {
      SealedByOneChar("", '\n');
    } else {
      LinesSplit(paths[1..]);
      SplitAtChar(paths[0], '\n', Lines(paths[1..]));
      assert Split(paths[0], NEWLINE) + (Tokens(paths[1..]) + [""]) == Tokens(paths) + [""];
    }
  }

  lemma TwoLinesFirst(a: string, b: string, rest: string)
    requires '\n' !in a && '\n' !in b
    ensures Split(a + NEWLINE + b + NEWLINE + rest, NEWLINE) == [a, b] + Split(rest, NEWLINE)
  {
    var tail := b + NEWLINE + rest;
    assert a + NEWLINE + b + NEWLINE + rest == a + NEWLINE + tail;
    assert Split(a + NEWLINE + tail, NEWLINE) == [a] + Split(tail, NEWLINE) by { SplitFirst(a, '\n', tail); }
    assert Split(tail, NEWLINE) == [b] + Split(rest, NEWLINE) by { SplitFirst(b, '\n', rest); }
  }

  lemma RenderSplit(stamp: string, marker: string, paths: seq<string>)
    requires HeaderText(stamp) && HeaderText(marker)
    ensures Split(Render(stamp, marker, paths), NEWLINE) == [stamp, marker] + Tokens(paths) + [""]
  {
    var body := Lines(paths);
    HeaderIsOneLine(stamp);
    HeaderIsOneLine(marker);
    LinesSplit(paths);
    TwoLinesFirst(stamp, marker, body);
    assert [stamp, marker] + (Tokens(paths) + [""]) == [stamp, marker] + Tokens(paths) + [""];
  }

  /** What a reader of the written file splits. */
  lemma ReadLines(stamp: string, marker: string, paths: seq<string>)
    requires HeaderText(stamp) && HeaderText(marker)
    ensures var data := Render(stamp, marker, paths);
            data != "" && Trims(Split(TrimSpace(data), NEWLINE), [stamp, marker] + Tokens(paths) + [""])
  {
    var data := Render(stamp, marker, paths);
    RenderSplit(stamp, marker, paths);
    assert data[0] == stamp[0];
    TrimRightKeeps(data);
    TrimmedLines(data);
  }

  /** A file that is too old, or written for another group, says nothing. */
  lemma ForeignFileIsIgnored(stamp: string, marker: string, paths: seq<string>, other: string)
    requires HeaderText(stamp) && HeaderText(marker)
    ensures Load(Render(stamp, marker, paths), marker, false) == {}
    ensures other != marker ==> Load(Render(stamp, marker, paths), other, true) == {}
  {
    ReadLines(stamp, marker, paths);
    assert [stamp, marker] + Tokens(paths) + [""] == [stamp, marker] + (Tokens(paths) + [""]);
    SecondLine(Split(TrimSpace(Render(stamp, marker, paths)), NEWLINE), stamp, marker, Tokens(paths) + [""]);
  }

  lemma SecondLine(t: seq<string>, stamp: string, marker: string, rest: seq<string>)
    requires Trims(t, [stamp, marker] + rest) && !EndsInSpace(marker)
    ensures |t| >= 2 ==> t[1] == marker
  {
    assert ([stamp, marker] + rest)[1] == marker;
  }

  /** Whatever is read back from a written file is a piece of a recorded name. */
  lemma LoadedArePieces(stamp: string, marker: string, paths: seq<string>, p: string)
    requires HeaderText(stamp) && HeaderText(marker) && p in Load(Render(stamp, marker, paths), marker, true)
    ensures exists k :: 0 <= k < |paths| && Piece(p, paths[k])
  {
    var t, s := Split(TrimSpace(Render(stamp, marker, paths)), NEWLINE), [stamp, marker] + Tokens(paths) + [""];
    ReadLines(stamp, marker, paths);
    var i :| 2 <= i < |t| && t[i] == p by {
      assert p in t[2..];
      var j :| 0 <= j < |t[2..]| && t[2..][j] == p;
      assert t[j + 2] == p;
    }
    assert p == s[i] || p == TrimRight(s[i]);
    assert TrimRight("") == "";
    assert s[i] == Tokens(paths)[i - 2];
    TokenOfOne(paths, s[i]);
    var k :| 0 <= k < |paths| && s[i] in Split(paths[k], NEWLINE);
    assert Piece(p, paths[k]);
  }

  lemma TrimsKeepsPlain(t: seq<string>, s: seq<string>, k: nat)
    requires Trims(t, s) && k < |s| && s[k] != "" && TrimRight(s[k]) == s[k]
    ensures k < |t| && t[k] == s[k] && forall j :: 0 <= j < k ==> t[j] == s[j]
  {
  }

  lemma PlainLineIsLoaded(data: string, marker: string, s: seq<string>, j: nat)
    requires data != "" && Trims(Split(TrimSpace(data), NEWLINE), s)
    requires 2 <= j < |s| && s[1] == marker && s[j] != "" && !EndsInSpace(s[j])
    ensures s[j] in Load(data, marker, true)
  {
    var t := Split(TrimSpace(data), NEWLINE);
    TrimsKeepsPlain(t, s, j);
    assert t[2..][j - 2] == s[j];
  }

  lemma LineOfName(stamp: string, marker: string, paths: seq<string>, name: string, q: string) returns (j: nat)
    requires name in paths && q in Split(name, NEWLINE)
    ensures var s := [stamp, marker] + Tokens(paths) + [""]; 2 <= j < |s| && s[j] == q && s[1] == marker
  {
    TokenOfOne(paths, q);
    var i :| 0 <= i < |Tokens(paths)| && Tokens(paths)[i] == q;
    j := i + 2;
  }

  /** A line of a recorded name that does not end in white space is read back, in whatever order the names
      are listed. */
  lemma PlainLineIsRead(stamp: string, marker: string, paths: seq<string>, name: string, q: string)
    requires HeaderText(stamp) && HeaderText(marker) && name in paths
    requires q in Split(name, NEWLINE) && q != "" && !EndsInSpace(q)
    ensures q in Load(Render(stamp, marker, paths), marker, true)
  {
    ReadLines(stamp, marker, paths);
    var j := LineOfName(stamp, marker, paths, name, q);
    PlainLineIsLoaded(Render(stamp, marker, paths), marker, [stamp, marker] + Tokens(paths) + [""], j);
  }

  /** Pieces of pieces are pieces, so writing a file that was read adds nothing. */
  lemma PieceOfPiece(p: string, g: string, name: string)
    requires Piece(p, g) && Piece(g, name)
    ensures Piece(p, name)
  {
    if g != name {
      var t :| t in Split(name, NEWLINE) && (g == t || g == TrimRight(t));
      LineHasNoNewline(name, t);
      SealedByOneChar(g, '\n');
      assert p == g || p == TrimRight(g);
      assert TrimRight(TrimRight(t)) == TrimRight(t);
    }
  }

  lemma LineHasNoNewline(name: string, t: string)
    requires t in Split(name, NEWLINE)
    ensures '\n' !in t && '\n' !in TrimRight(t)
  {
    var k :| 0 <= k < |Split(name, NEWLINE)| && Split(name, NEWLINE)[k] == t;
    TokensAreSeparatorFree(name, NEWLINE, k);
    NotContained(t, NEWLINE);
    SealedByOneChar(t, '\n');
    assert TrimRight(t) <= t;
  }

  /** The last name of a file loses its trailing white space. */
  lemma LastIsTrimmed(stamp: string, marker: string, paths: seq<string>, name: string)
    requires HeaderText(stamp) && HeaderText(marker) && paths != [] && paths[|paths| - 1] == name
    requires '\n' !in name && TrimRight(name) != ""
    ensures TrimRight(name) in Load(Render(stamp, marker, paths), marker, true)
  {
    var tokens := TokensEndingIn(stamp, marker, paths);
    LastTokenIsLoaded(Render(stamp, marker, paths), stamp, marker, tokens);
  }

  lemma TokensEndingIn(stamp: string, marker: string, paths: seq<string>) returns (tokens: seq<string>)
    requires HeaderText(stamp) && HeaderText(marker) && paths != [] && '\n' !in paths[|paths| - 1]
    ensures var data := Render(stamp, marker, paths);
            data != "" && Trims(Split(TrimSpace(data), NEWLINE), [stamp, marker] + tokens + [""])
    ensures tokens != [] && tokens[|tokens| - 1] == paths[|paths| - 1]
  {
    ReadLines(stamp, marker, paths);
    LastToken(paths);
    tokens := Tokens(paths);
  }

  lemma LastTokenIsLoaded(data: string, stamp: string, marker: string, tokens: seq<string>)
    requires data != "" && Trims(Split(TrimSpace(data), NEWLINE), [stamp, marker] + tokens + [""])
    requires tokens != [] && TrimRight(tokens[|tokens| - 1]) != ""
    ensures TrimRight(tokens[|tokens| - 1]) in Load(data, marker, true)
  {
    LastButOne(stamp, marker, tokens);
    TrimmedIsLoaded(data, marker, [stamp, marker] + tokens + [""]);
  }

  lemma LastButOne(stamp: string, marker: string, tokens: seq<string>)
    requires tokens != []
    ensures var s := [stamp, marker] + tokens + [""];
            |s| >= 4 && s[|s| - 2] == tokens[|tokens| - 1] && s[|s| - 1] == "" && s[1] == marker
  {
  }

  lemma {:induction false} LastToken(paths: seq<string>)
    requires paths != [] && '\n' !in paths[|paths| - 1]
    ensures Tokens(paths) != [] && Tokens(paths)[|Tokens(paths)| - 1] == paths[|paths| - 1]
  {
    if |paths| == 1 {
      SealedByOneChar(paths[0], '\n');
      assert Tokens(paths[1..]) == [];
    } else {
      LastToken(paths[1..]);
    }
  }

  lemma TrimmedIsLoaded(data: string, marker: string, s: seq<string>)
    requires data != "" && Trims(Split(TrimSpace(data), NEWLINE), s)
    requires |s| >= 4 && s[1] == marker && s[|s| - 1] == "" && TrimRight(s[|s| - 2]) != ""
    ensures TrimRight(s[|s| - 2]) in Load(data, marker, true)
  {
    var t, j := Split(TrimSpace(data), NEWLINE), |s| - 2;
    assert TrimRight("") == "";
    assert |t| == j + 1;
    assert t[2..][j - 2] == t[j];
  }
}
