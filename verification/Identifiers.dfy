/** Volume, snapshot and node identifiers (common/utils/identifiers). */
module Identifiers {
  import opened Strings

  const VOLUME_ID_SEPARATOR := "=_=_="
  const NODE_ID_SEPARATOR := "=#=#="
  const PROVISIONING_MODE_DIRECTORY := "directory"

  // ---- volume identifiers ----

  datatype VolumeId = VolumeId(name: string, exportID: int, zone: string, cluster: string)

  function GetNormalizedVolumeID(v: VolumeId): string {
    v.name + VOLUME_ID_SEPARATOR + (Itoa(v.exportID) + VOLUME_ID_SEPARATOR
                                    + (v.zone + VOLUME_ID_SEPARATOR + v.cluster))
  }

  function GetDirectoryBackedVolumeID(v: VolumeId): string {
    v.name + VOLUME_ID_SEPARATOR + (Itoa(v.exportID) + VOLUME_ID_SEPARATOR
                                    + (v.zone + VOLUME_ID_SEPARATOR
                                       + (v.cluster + VOLUME_ID_SEPARATOR + PROVISIONING_MODE_DIRECTORY)))
  }

  /** Three tokens are required; a fourth is the cluster name; further tokens are ignored here. */
  function ParseNormalizedVolumeID(volID: string): (r: Option<VolumeId>) {
    var tokens := Split(volID, VOLUME_ID_SEPARATOR);
    if |tokens| < 3 then None
    else match Atoi(tokens[1])
         case None => None
         case Some(id) => Some(VolumeId(tokens[0], id, tokens[2], if |tokens| > 3 then tokens[3] else ""))
  }

  /** Adds the fifth token, the provisioning mode; empty means export-backed. */
  function ParseVolumeIDWithMode(volID: string): (r: Option<(VolumeId, string)>) {
    match ParseNormalizedVolumeID(volID)
    case None => None
    case Some(v) =>
      var tokens := Split(volID, VOLUME_ID_SEPARATOR);
      Some((v, if |tokens| > 4 then tokens[4] else ""))
  }

  /** A field that may stand before a separator: it neither holds one nor ends in the two characters
      that, glued to a separator, spell one earlier. */
  ghost predicate IdSafe(field: string) {
    !Contains(field, VOLUME_ID_SEPARATOR) && !HasSuffix(field, "=_")
  }

  lemma {:induction false} SealedIffIdSafe(field: string)
    ensures Sealed(field, VOLUME_ID_SEPARATOR) <==> IdSafe(field)
  {
    var sep := VOLUME_ID_SEPARATOR;
    var t, n := field + sep, |field|;
    assert At(t, sep, n);
    IndexIsLeast(t, sep, n);
    if Contains(field, sep) {
      var j :| At(field, sep, j);
      assert t[j..j + 5] == field[j..j + 5];
      IndexIsLeast(t, sep, j);
    }
    if HasSuffix(field, "=_") {
      assert t[n - 2] == field[n - 2..][0] && t[n - 1] == field[n - 2..][1];
      assert t[n - 2..n + 3] == sep;
      IndexIsLeast(t, sep, n - 2);
    }
    var i := Index(t, sep);
    if i < n {
      StraddlingSeparator(field, i);
    }
  }

  lemma StraddlingSeparator(field: string, i: nat)
    requires i < |field| && At(field + VOLUME_ID_SEPARATOR, VOLUME_ID_SEPARATOR, i)
    ensures !IdSafe(field)
  {
    var sep := VOLUME_ID_SEPARATOR;
    var t, n := field + sep, |field|;
    forall k | 0 <= k < 5 ensures t[i + k] == sep[k] { AtChar(t, sep, i, k); }
    if i + 5 <= n {
      forall k | 0 <= k < 5 ensures field[i + k] == sep[k] { assert t[i + k] == field[i + k]; }
      assert field[i..i + 5] == sep;
      assert At(field, sep, i);
    } else {
      assert At(t, sep, n);
      Overlap(t, n, i);
      assert field[n - 2] == t[n - 2] && field[n - 1] == t[n - 1];
      assert field[n - 2..] == "=_";
    }
  }

  /** Two separators of `t` that overlap, at `i` and at `n`, share their ends. */
  lemma Overlap(t: string, n: nat, i: nat)
    requires i < n < i + 5 && At(t, VOLUME_ID_SEPARATOR, i) && At(t, VOLUME_ID_SEPARATOR, n)
    ensures n >= 2 && t[n - 2] == '=' && t[n - 1] == '_'
  {
    AtChar(t, VOLUME_ID_SEPARATOR, i, 0);
    AtChar(t, VOLUME_ID_SEPARATOR, i, 1);
    AtChar(t, VOLUME_ID_SEPARATOR, i, 2);
    AtChar(t, VOLUME_ID_SEPARATOR, i, 3);
    AtChar(t, VOLUME_ID_SEPARATOR, n, 0);
    assert t[i] == '=' && t[i + 1] == '_' && t[i + 2] == '=' && t[i + 3] == '_' && t[n] == '=';
    assert n == i + 2 || n == i + 4;
  }

  /** The first token of `field =_=_= rest` is `field` exactly when the field is safe. */
  lemma FirstToken(field: string, rest: string)
    ensures var s := field + VOLUME_ID_SEPARATOR + rest;
            if IdSafe(field) then Split(s, VOLUME_ID_SEPARATOR) == [field] + Split(rest, VOLUME_ID_SEPARATOR)
            else Split(s, VOLUME_ID_SEPARATOR)[0] != field
  {
    var s := field + VOLUME_ID_SEPARATOR + rest;
    SealedIffIdSafe(field);
    SealedMeansFirst(field, VOLUME_ID_SEPARATOR, rest);
    var i := Index(s, VOLUME_ID_SEPARATOR);
    if i == |field| {
      assert s[..i] == field && s[i + 5..] == rest;
    }
  }

  lemma LastToken(field: string)
    ensures if Contains(field, VOLUME_ID_SEPARATOR) then Split(field, VOLUME_ID_SEPARATOR)[0] != field
            else Split(field, VOLUME_ID_SEPARATOR) == [field]
  {
    NotContained(field, VOLUME_ID_SEPARATOR);
  }

  lemma NoEqualsSignIsSafe(field: string)
    requires '=' !in field
    ensures IdSafe(field)
  {
    forall j ensures !At(field, VOLUME_ID_SEPARATOR, j) { AtChar(field, VOLUME_ID_SEPARATOR, j, 0); }
    AtChar(field, "=_", |field| - 2, 0);
  }

  /** What `Split` makes of an identifier's first three tokens. */
  lemma HeadTokens(v: VolumeId, rest: string)
    ensures var t := Split(v.name + VOLUME_ID_SEPARATOR
                           + (Itoa(v.exportID) + VOLUME_ID_SEPARATOR + (v.zone + VOLUME_ID_SEPARATOR + rest)),
                           VOLUME_ID_SEPARATOR);
            if !IdSafe(v.name) then t[0] != v.name
            else if !IdSafe(v.zone) then |t| >= 3 && t[2] != v.zone
            else t == [v.name, Itoa(v.exportID), v.zone] + Split(rest, VOLUME_ID_SEPARATOR)
  {
    NoEqualsSignIsSafe(Itoa(v.exportID));
    ThreeTokens(v.name, Itoa(v.exportID), v.zone, rest);
  }

  lemma ThreeTokens(a: string, b: string, c: string, rest: string)
    requires IdSafe(b)
    ensures var t := Split(a + VOLUME_ID_SEPARATOR + (b + VOLUME_ID_SEPARATOR + (c + VOLUME_ID_SEPARATOR + rest)),
                           VOLUME_ID_SEPARATOR);
            if !IdSafe(a) then t[0] != a
            else if !IdSafe(c) then |t| >= 3 && t[2] != c
            else t == [a, b, c] + Split(rest, VOLUME_ID_SEPARATOR)
  {
    var more := b + VOLUME_ID_SEPARATOR + (c + VOLUME_ID_SEPARATOR + rest);
    FirstToken(a, more);
    if IdSafe(a) {
      TwoTokens(b, c, rest);
      Prepended(a, Split(more, VOLUME_ID_SEPARATOR), b, c, Split(rest, VOLUME_ID_SEPARATOR));
    }
  }

  lemma TwoTokens(b: string, c: string, rest: string)
    requires IdSafe(b)
    ensures var t := Split(b + VOLUME_ID_SEPARATOR + (c + VOLUME_ID_SEPARATOR + rest), VOLUME_ID_SEPARATOR);
            if !IdSafe(c) then |t| >= 2 && t[1] != c else t == [b, c] + Split(rest, VOLUME_ID_SEPARATOR)
  {
    var more := c + VOLUME_ID_SEPARATOR + rest;
    FirstToken(b, more);
    FirstToken(c, rest);
    var t, u := Split(more, VOLUME_ID_SEPARATOR), Split(rest, VOLUME_ID_SEPARATOR);
    assert ([b] + t)[1] == t[0];
    if IdSafe(c) { assert [b] + ([c] + u) == [b, c] + u; }
  }

  lemma Prepended(a: string, t: seq<string>, b: string, c: string, u: seq<string>)
    ensures t == [b, c] + u ==> [a] + t == [a, b, c] + u
    ensures |t| >= 2 ==> ([a] + t)[2] == t[1]
  {
  }

  /** Parsing a built four-token identifier gives the fields back exactly when the name and the zone are
      safe and the cluster name holds no separator; the mode is then empty. */
  lemma VolumeIdRoundTrip(v: VolumeId)
    requires IsInt64(v.exportID)
    ensures ParseNormalizedVolumeID(GetNormalizedVolumeID(v)) == Some(v)
            <==> IdSafe(v.name) && IdSafe(v.zone) && !Contains(v.cluster, VOLUME_ID_SEPARATOR)
    ensures ParseVolumeIDWithMode(GetNormalizedVolumeID(v)) == Some((v, ""))
            <==> IdSafe(v.name) && IdSafe(v.zone) && !Contains(v.cluster, VOLUME_ID_SEPARATOR)
  {
    HeadTokens(v, v.cluster);
    LastToken(v.cluster);
    AtoiOfItoa(v.exportID);
  }

  /** The five-token form also puts a separator after the cluster name, so that must be safe too. */
  lemma DirectoryVolumeIdRoundTrip(v: VolumeId)
    requires IsInt64(v.exportID)
    ensures ParseVolumeIDWithMode(GetDirectoryBackedVolumeID(v)) == Some((v, PROVISIONING_MODE_DIRECTORY))
            <==> IdSafe(v.name) && IdSafe(v.zone) && IdSafe(v.cluster)
  {
    HeadTokens(v, v.cluster + VOLUME_ID_SEPARATOR + PROVISIONING_MODE_DIRECTORY);
    ModeTokens(v.cluster);
    AtoiOfItoa(v.exportID);
  }

  lemma ModeTokens(cluster: string)
    ensures var t := Split(cluster + VOLUME_ID_SEPARATOR + PROVISIONING_MODE_DIRECTORY, VOLUME_ID_SEPARATOR);
            if IdSafe(cluster) then t == [cluster, PROVISIONING_MODE_DIRECTORY] else t[0] != cluster
  {
    FirstToken(cluster, PROVISIONING_MODE_DIRECTORY);
    NoEqualsSignIsSafe(PROVISIONING_MODE_DIRECTORY);
    LastToken(PROVISIONING_MODE_DIRECTORY);
  }

  /** The boundary condition is not idle: a name that merely ends in "=_" loses those characters. */
  lemma NameEndingInHalfASeparator()
    ensures var v := VolumeId("vol=_", 7, "System", "c1");
            !Contains(v.name, VOLUME_ID_SEPARATOR) && ParseNormalizedVolumeID(GetNormalizedVolumeID(v)) != Some(v)
  {
    var v := VolumeId("vol=_", 7, "System", "c1");
    assert HasSuffix(v.name, "=_");
    VolumeIdRoundTrip(v);
    forall j ensures !At(v.name, VOLUME_ID_SEPARATOR, j) { AtChar(v.name, VOLUME_ID_SEPARATOR, j, 0); }
  }

  // ---- snapshot identifiers ----

  datatype SnapshotId = SnapshotId(id: string, cluster: string, zone: string)

  function GetNormalizedSnapshotID(x: SnapshotId): string {
    x.id + VOLUME_ID_SEPARATOR + (x.cluster + VOLUME_ID_SEPARATOR + x.zone)
  }

  /** One token is a bare identifier; two tokens are an error; three or more carry cluster and zone. */
  function ParseNormalizedSnapshotID(snapID: string): (r: Option<SnapshotId>) {
    var tokens := Split(snapID, VOLUME_ID_SEPARATOR);
    if |tokens| == 1 then Some(SnapshotId(tokens[0], "", ""))
    else if |tokens| == 2 then None
    else Some(SnapshotId(tokens[0], tokens[1], tokens[2]))
  }

  lemma SnapshotIdRoundTrip(x: SnapshotId)
    ensures ParseNormalizedSnapshotID(GetNormalizedSnapshotID(x)) == Some(x)
            <==> IdSafe(x.id) && IdSafe(x.cluster) && !Contains(x.zone, VOLUME_ID_SEPARATOR)
  {
    FirstToken(x.id, x.cluster + VOLUME_ID_SEPARATOR + x.zone);
    FirstToken(x.cluster, x.zone);
    LastToken(x.zone);
    var tokens := Split(GetNormalizedSnapshotID(x), VOLUME_ID_SEPARATOR);
    if IdSafe(x.id) && !IdSafe(x.cluster) {
      assert tokens[1] != x.cluster;
      if |tokens| == 1 { assert false; }
    }
  }

  // ---- node identifiers ----

  datatype NodeId = NodeId(name: string, fqdn: string, ip: string)

  function BuildNodeID(n: NodeId): string {
    n.name + NODE_ID_SEPARATOR + (n.fqdn + NODE_ID_SEPARATOR + n.ip)
  }

  /** Right-most position at or before `j` where `(.+)=#=#=(.+)$` can put its separator, or -1. */
  function LastInner(s: string, j: int): (r: int)
    requires j <= |s|
    ensures r == -1 || (1 <= r <= j && At(s, NODE_ID_SEPARATOR, r) && r + 5 < |s|)
    decreases j
  {
    if j < 1 then -1
    else if At(s, NODE_ID_SEPARATOR, j) && j + 5 < |s| then j
    else LastInner(s, j - 1)
  }

  /** Right-most position at or before `i` where `^(.+)=#=#=(.+)=#=#=(.+)$` can put its first separator. */
  function LastOuter(s: string, i: int): (r: int)
    requires i <= |s|
    ensures r == -1 || (1 <= r <= i && At(s, NODE_ID_SEPARATOR, r))
    ensures r != -1 ==> LastInner(s[r + 5..], |s| - r - 5) != -1
    decreases i
  {
    if i < 1 then -1
    else if At(s, NODE_ID_SEPARATOR, i) && LastInner(s[i + 5..], |s| - i - 5) != -1 then i
    else LastOuter(s, i - 1)
  }

  /** The greedy pattern `^(.+)=#=#=(.+)=#=#=(.+)$`: each group takes as much as it can, and `.` never
      matches a newline. */
  function ParseNodeID(s: string): (r: Option<NodeId>) {
    if '\n' in s then None
    else
      var i := LastOuter(s, |s|);
      if i == -1 then None
      else
        var rest := s[i + 5..];
        var j := LastInner(rest, |rest|);
        Some(NodeId(s[..i], rest[..j], rest[j + 5..]))
  }

  /** Whatever is parsed can be put back together, so no character is lost or invented. */
  lemma ParsedNodeIdRebuilds(s: string)
    ensures ParseNodeID(s).Some? ==>
              var n := ParseNodeID(s).value;
              BuildNodeID(n) == s && n.name != "" && n.fqdn != "" && n.ip != ""
  {
    if ParseNodeID(s).Some? {
      var i := LastOuter(s, |s|);
      var rest := s[i + 5..];
      CutAt(s, NODE_ID_SEPARATOR, i);
      CutAt(rest, NODE_ID_SEPARATOR, LastInner(rest, |rest|));
    }
  }

  // ---- which positions the greedy pattern takes ----

  /** The inner separator may stand at `j`. */
  predicate InnerAt(s: string, j: int) { 1 <= j && j + 5 < |s| && At(s, NODE_ID_SEPARATOR, j) }

  /** The outer separator may stand at `i`: an inner one can follow. */
  ghost predicate OuterAt(s: string, i: int) {
    1 <= i && At(s, NODE_ID_SEPARATOR, i) && exists j :: i + 6 <= j && InnerAt(s, j)
  }

  lemma {:induction false} InnerIsGreatest(s: string, j: int, k: int)
    requires k <= j <= |s|
    ensures InnerAt(s, k) ==> k <= LastInner(s, j)
    decreases j
  {
    if j >= 1 && k < j { InnerIsGreatest(s, j - 1, k); }
  }

  lemma InnerShift(s: string, d: nat, j: int)
    requires d <= |s|
    ensures 1 <= j ==> (InnerAt(s[d..], j) <==> InnerAt(s, d + j))
  {
    if 1 <= j && j + 5 <= |s| - d { assert s[d..][j..j + 5] == s[d + j..d + j + 5]; }
  }

  lemma OuterMeans(s: string, i: int)
    requires 1 <= i && At(s, NODE_ID_SEPARATOR, i)
    ensures LastInner(s[i + 5..], |s| - i - 5) != -1 <==> OuterAt(s, i)
  {
    var rest := s[i + 5..];
    var x := LastInner(rest, |rest|);
    if x != -1 { InnerShift(s, i + 5, x); }
    if j :| i + 6 <= j && InnerAt(s, j) {
      InnerShift(s, i + 5, j - i - 5);
      InnerIsGreatest(rest, |rest|, j - i - 5);
    }
  }

  lemma {:induction false} OuterIsGreatest(s: string, i: int, k: int)
    requires k <= i <= |s|
    ensures OuterAt(s, k) ==> k <= LastOuter(s, i)
    ensures LastOuter(s, i) != -1 ==> OuterAt(s, LastOuter(s, i))
    decreases i
  {
    if i >= 1 {
      if At(s, NODE_ID_SEPARATOR, i) { OuterMeans(s, i); }
      OuterIsGreatest(s, i - 1, if k < i then k else i - 1);
    }
  }

  /** The outer separator is the last one that an inner one can follow. */
  lemma OuterExact(s: string, i: int)
    requires 1 <= i
    ensures LastOuter(s, |s|) == i <==> OuterAt(s, i) && forall k :: i < k ==> !OuterAt(s, k)
  {
    var r := LastOuter(s, |s|);
    OuterIsGreatest(s, |s|, r);
    forall k ensures OuterAt(s, k) ==> k <= r { if k <= |s| { OuterIsGreatest(s, |s|, k); } }
  }

  /** The inner separator is the last one that text can follow. */
  lemma InnerExact(s: string, j: int)
    requires 1 <= j
    ensures LastInner(s, |s|) == j <==> InnerAt(s, j) && forall k :: j < k ==> !InnerAt(s, k)
  {
    var r := LastInner(s, |s|);
    assert r != -1 ==> InnerAt(s, r);
    forall k ensures InnerAt(s, k) ==> k <= r { if k <= |s| { InnerIsGreatest(s, |s|, k); } }
  }

  /** Nothing after the name can be read as an earlier or later cut: past the second separator none is
      followed by text, and past the first none is followed by another one that is. */
  ghost predicate Unambiguous(n: NodeId) {
    var s, k := BuildNodeID(n), |n.name|;
    && n.name != "" && n.fqdn != "" && n.ip != "" && '\n' !in s
    && (forall j :: k + 5 + |n.fqdn| < j ==> !InnerAt(s, j))
    && (forall i :: k < i ==> !OuterAt(s, i))
  }

  lemma PartsOfNodeId(n: NodeId)
    ensures var s, rest, k, m := BuildNodeID(n), n.fqdn + NODE_ID_SEPARATOR + n.ip, |n.name|, |n.fqdn|;
            && s[..k] == n.name && At(s, NODE_ID_SEPARATOR, k) && s[k + 5..] == rest
            && rest[..m] == n.fqdn && At(rest, NODE_ID_SEPARATOR, m) && rest[m + 5..] == n.ip
  {
  }

  lemma UnambiguousRest(n: NodeId)
    requires n.fqdn != ""
    ensures var rest := n.fqdn + NODE_ID_SEPARATOR + n.ip; var k := |n.name|;
            LastInner(rest, |rest|) == |n.fqdn|
            <==> n.ip != "" && forall j :: k + 5 + |n.fqdn| < j ==> !InnerAt(BuildNodeID(n), j)
  {
    var s, rest, k, m := BuildNodeID(n), n.fqdn + NODE_ID_SEPARATOR + n.ip, |n.name|, |n.fqdn|;
    PartsOfNodeId(n);
    InnerExact(rest, m);
    assert InnerAt(rest, m) <==> n.ip != "";
    forall j | m < j ensures InnerAt(rest, j) <==> InnerAt(s, k + 5 + j) { InnerShift(s, k + 5, j); }
    forall j | k + 5 + m < j ensures InnerAt(rest, j - k - 5) <==> InnerAt(s, j) { InnerShift(s, k + 5, j - k - 5); }
  }

  lemma UnambiguousMeans(n: NodeId)
    requires n.name != "" && n.fqdn != ""
    ensures var s, rest := BuildNodeID(n), n.fqdn + NODE_ID_SEPARATOR + n.ip;
            Unambiguous(n) <==> '\n' !in s && LastOuter(s, |s|) == |n.name| && LastInner(rest, |rest|) == |n.fqdn|
  {
    var s, rest, k, m := BuildNodeID(n), n.fqdn + NODE_ID_SEPARATOR + n.ip, |n.name|, |n.fqdn|;
    UnambiguousRest(n);
    OuterExact(s, k);
    if n.ip != "" { OuterAtName(n); }
  }

  lemma OuterAtName(n: NodeId)
    requires n.name != "" && n.fqdn != "" && n.ip != ""
    ensures OuterAt(BuildNodeID(n), |n.name|)
  {
    var s, rest, k, m := BuildNodeID(n), n.fqdn + NODE_ID_SEPARATOR + n.ip, |n.name|, |n.fqdn|;
    PartsOfNodeId(n);
    assert InnerAt(rest, m);
    InnerShift(s, k + 5, m);
    assert InnerAt(s, k + 5 + m);
  }

  /** The greedy parse recovers the three parts if and only if they are not empty, hold no newline and leave
      no later place for either separator. */
  lemma NodeIdExact(n: NodeId)
    ensures ParseNodeID(BuildNodeID(n)) == Some(n) <==> Unambiguous(n)
  {
    if n.name != "" && n.fqdn != "" {
      UnambiguousMeans(n);
      ParseAtName(n);
    } else {
      ParsedNodeIdRebuilds(BuildNodeID(n));
    }
  }

  /** The parse gives `n` exactly when both separators are found where they were put. */
  lemma ParseAtName(n: NodeId)
    requires n.name != "" && n.fqdn != ""
    ensures var s, rest := BuildNodeID(n), n.fqdn + NODE_ID_SEPARATOR + n.ip;
            ParseNodeID(s) == Some(n)
            <==> '\n' !in s && LastOuter(s, |s|) == |n.name| && LastInner(rest, |rest|) == |n.fqdn|
  {
    PartsOfNodeId(n);
    var s := BuildNodeID(n);
    if ParseNodeID(s) == Some(n) {
      var i := LastOuter(s, |s|);
      assert s[..i] == n.name;
      assert i == |n.name|;
    }
  }

  /** A host name or address, which by section 2.1 of RFC 1123 never holds a separator character. */
  predicate HostText(s: string) {
    s != "" && '=' !in s && '#' !in s && '\n' !in s
  }

  lemma MisplacedSeparator(fqdn: string, ip: string, j: nat)
    requires HostText(fqdn) && HostText(ip) && j != |fqdn|
    ensures !At(fqdn + NODE_ID_SEPARATOR + ip, NODE_ID_SEPARATOR, j)
  {
    var s, n := fqdn + NODE_ID_SEPARATOR + ip, |fqdn|;
    AtChar(s, NODE_ID_SEPARATOR, j, 0);
    AtChar(s, NODE_ID_SEPARATOR, j, 3);
    assert j < n ==> s[j] == fqdn[j];
    assert n + 5 <= j < |s| ==> s[j] == ip[j - n - 5];
    assert n <= j < n + 5 ==> s[j] == NODE_ID_SEPARATOR[j - n];
    assert n + 2 <= j && j + 3 < |s| ==> s[j + 3] == ip[j - n - 2];
  }

  lemma PastTheName(n: NodeId, i: nat)
    requires HostText(n.fqdn) && HostText(n.ip)
    requires |n.name| < i && At(BuildNodeID(n), NODE_ID_SEPARATOR, i)
    ensures i == |n.name| + 5 + |n.fqdn|
  {
    var s, rest, k := BuildNodeID(n), n.fqdn + NODE_ID_SEPARATOR + n.ip, |n.name|;
    assert s[k + 5] == n.fqdn[0];
    assert forall d :: 0 <= d < 5 ==> s[k + d] == NODE_ID_SEPARATOR[d];
    AtChar(s, NODE_ID_SEPARATOR, i, 0);
    AtChar(s, NODE_ID_SEPARATOR, i, 1);
    AtChar(s, NODE_ID_SEPARATOR, i, 3);
    assert k + 5 <= i;
    assert rest[i - k - 5..i - k] == s[i..i + 5];
    MisplacedSeparator(n.fqdn, n.ip, if i - k - 5 == |n.fqdn| then 0 else i - k - 5);
  }

  /** With host texts that is every non-empty, newline-free name, even one holding separators or ending in
      half of one. */
  lemma NodeIdRoundTrip(n: NodeId)
    requires n.name != "" && '\n' !in n.name && HostText(n.fqdn) && HostText(n.ip)
    ensures ParseNodeID(BuildNodeID(n)) == Some(n)
  {
    var s, m := BuildNodeID(n), |n.name| + 5 + |n.fqdn|;
    assert Unambiguous(n) by {
      forall i | |n.name| < i ensures At(s, NODE_ID_SEPARATOR, i) ==> i == m {
        if At(s, NODE_ID_SEPARATOR, i) { PastTheName(n, i); }
      }
      assert '\n' !in s;
    }
    NodeIdExact(n);
  }

  const DUMMY_HOST_NODE_ID := "localhost" + NODE_ID_SEPARATOR + ("localhost" + NODE_ID_SEPARATOR + "127.0.0.1")

  /** The dummy client added to every new export parses into its host names and loopback address. */
  lemma DummyHostParses()
    ensures ParseNodeID(DUMMY_HOST_NODE_ID) == Some(NodeId("localhost", "localhost", "127.0.0.1"))
  {
    NodeIdRoundTrip(NodeId("localhost", "localhost", "127.0.0.1"));
  }
}
