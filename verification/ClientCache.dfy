/** Which network identifier the array accepts for a node: the cache behind
    AddExportClientNetworkIdentifierByIDWithZone (service/isiService.go). A cluster has a list of one-entry
    maps from node ID to identifier. */
module ClientCache {
  import opened Strings
  import opened Identifiers

  type Bucket = seq<map<string, string>>
  type Cache = map<string, Bucket>

  // ---- look-up and update as functions ----

  function FindIn(b: Bucket, node: string): Option<string> {
    if b == [] then None
    else if node in b[0] then Some(b[0][node])
    else FindIn(b[1..], node)
  }

  function Find(cache: Cache, cluster: string, node: string): Option<string> {
    if cluster in cache then FindIn(cache[cluster], node) else None
  }

  /** The first map that has the node is replaced by a map that has only the node. */
  function Replace(b: Bucket, node: string, client: string): Bucket {
    if b == [] then [map[node := client]]
    else if node in b[0] then [if b[0][node] == client then b[0] else map[node := client]] + b[1..]
    else [b[0]] + Replace(b[1..], node, client)
  }

  function Update(cache: Cache, cluster: string, node: string, client: string): Cache {
    cache[cluster := Replace(if cluster in cache then cache[cluster] else [], node, client)]
  }

  // ---- the shape of a bucket ----

  ghost predicate Single(m: map<string, string>) { exists k :: m.Keys == {k} }

  ghost predicate OneEntryEach(b: Bucket) { forall i :: 0 <= i < |b| ==> Single(b[i]) }

  ghost predicate NoNodeTwice(b: Bucket) { forall i, j :: 0 <= i < j < |b| ==> b[i].Keys !! b[j].Keys }

  ghost predicate Valid(cache: Cache) { forall c :: c in cache ==> OneEntryEach(cache[c]) && NoNodeTwice(cache[c]) }

  ghost function Nodes(b: Bucket): set<string> { set i, k | 0 <= i < |b| && k in b[i] :: k }

  lemma ConsOneEntry(m: map<string, string>, b: Bucket)
    ensures OneEntryEach([m] + b) <==> Single(m) && OneEntryEach(b)
  {
    var all := [m] + b;
    assert forall i :: 0 <= i < |b| ==> all[i + 1] == b[i];
    if OneEntryEach(all) {
      assert Single(all[0]);
      forall i | 0 <= i < |b| ensures Single(b[i]) { assert Single(all[i + 1]); }
    }
  }

  lemma ConsNodes(m: map<string, string>, b: Bucket)
    ensures Nodes([m] + b) == m.Keys + Nodes(b)
  {
    var all := [m] + b;
    forall k | k in Nodes(all) ensures k in m.Keys + Nodes(b) {
      var i :| 0 <= i < |all| && k in all[i];
      if i > 0 { assert k in b[i - 1]; }
    }
    forall k | k in m.Keys + Nodes(b) ensures k in Nodes(all) {
      if k in m {
        assert k in all[0];
      } else {
        var i :| 0 <= i < |b| && k in b[i];
        assert k in all[i + 1];
      }
    }
  }

  lemma ConsNoNodeTwice(m: map<string, string>, b: Bucket)
    ensures NoNodeTwice([m] + b) <==> m.Keys !! Nodes(b) && NoNodeTwice(b)
  {
    var all := [m] + b;
    if NoNodeTwice(all) {
      forall i, j | 0 <= i < j < |b| ensures b[i].Keys !! b[j].Keys { assert all[i + 1].Keys !! all[j + 1].Keys; }
      forall k | k in Nodes(b) ensures k !in m.Keys {
        var i :| 0 <= i < |b| && k in b[i];
        assert all[0].Keys !! all[i + 1].Keys;
      }
    }
    if m.Keys !! Nodes(b) && NoNodeTwice(b) {
      forall i, j | 0 <= i < j < |all| ensures all[i].Keys !! all[j].Keys {
        assert forall k :: k in b[j - 1] ==> k in Nodes(b);
        if i > 0 { assert b[i - 1].Keys !! b[j - 1].Keys; }
      }
    }
  }

  lemma ConsShape(m: map<string, string>, b: Bucket)
    ensures OneEntryEach([m] + b) <==> Single(m) && OneEntryEach(b)
    ensures NoNodeTwice([m] + b) <==> m.Keys !! Nodes(b) && NoNodeTwice(b)
    ensures Nodes([m] + b) == m.Keys + Nodes(b)
  {
    ConsOneEntry(m, b);
    ConsNodes(m, b);
    ConsNoNodeTwice(m, b);
  }

  /** Replacing keeps one entry per map and each node once, and adds no node but this one. */
  lemma {:induction false} ReplaceKeepsShape(b: Bucket, node: string, client: string)
    requires OneEntryEach(b) && NoNodeTwice(b)
    ensures OneEntryEach(Replace(b, node, client)) && NoNodeTwice(Replace(b, node, client))
    ensures Nodes(Replace(b, node, client)) == Nodes(b) + {node}
  {
    var one := map[node := client];
    assert one.Keys == {node};
    if b == [] {
      assert [one] == [one] + b;
      ConsShape(one, b);
    } else {
      assert b == [b[0]] + b[1..];
      ConsShape(b[0], b[1..]);
      if node in b[0] {
        var k :| b[0].Keys == {k};
        assert b[0].Keys == {node};
        ConsShape(one, b[1..]);
      } else {
        ReplaceKeepsShape(b[1..], node, client);
        ConsShape(b[0], Replace(b[1..], node, client));
      }
    }
  }

  lemma {:induction false} FindAfterReplace(b: Bucket, node: string, client: string, other: string)
    requires OneEntryEach(b)
    ensures FindIn(Replace(b, node, client), other) == if other == node then Some(client) else FindIn(b, other)
  {
    if b == [] {
      assert Replace(b, node, client)[1..] == [];
    } else {
      assert b == [b[0]] + b[1..];
      ConsShape(b[0], b[1..]);
      assert Replace(b, node, client)[1..] == if node in b[0] then b[1..] else Replace(b[1..], node, client);
      if node in b[0] {
        var k :| b[0].Keys == {k};
        assert b[0].Keys == {node};
      } else {
        FindAfterReplace(b[1..], node, client, other);
      }
    }
  }

  /** The lists of one-entry maps behave as one map from cluster and node to identifier. */
  lemma UpdateActsAsMap(cache: Cache, cluster: string, node: string, client: string)
    requires Valid(cache)
    ensures Valid(Update(cache, cluster, node, client))
    ensures forall c, n :: Find(Update(cache, cluster, node, client), c, n)
                           == if c == cluster && n == node then Some(client) else Find(cache, c, n)
  {
    var b := if cluster in cache then cache[cluster] else [];
    ReplaceKeepsShape(b, node, client);
    forall c, n ensures Find(Update(cache, cluster, node, client), c, n)
                        == if c == cluster && n == node then Some(client) else Find(cache, c, n) {
      FindAfterReplace(b, node, client, n);
    }
  }

  // ---- adding a client ----

  /** One call; `first` and `second` say whether the array accepts the first and the second identifier. */
  datatype Call = Call(cluster: string, node: string, ignoring: bool, first: bool, second: bool)

  /** `tried` lists the identifiers offered to the array, in order. */
  datatype Outcome = Outcome(cache: Cache, ok: bool, tried: seq<string>)

  function AddClient(cache: Cache, call: Call): Outcome {
    match ParseNodeID(call.node)
    case None => Outcome(cache, false, [])
    case Some(id) =>
      if call.ignoring then Outcome(cache, call.first, [id.ip])
      else
        var cached := Find(cache, call.cluster, call.node);
        var x := if cached.Some? then cached.value else id.fqdn;
        var y := if x == id.fqdn then id.ip else id.fqdn;
        if call.first then Outcome(Update(cache, call.cluster, call.node, x), true, [x])
        else if call.second then Outcome(Update(cache, call.cluster, call.node, y), true, [x, y])
        else Outcome(cache, false, [x, y])
  }

  class NodeClients {
    var cache: Cache

    constructor ()
      ensures cache == map[]
    {
      cache := map[];
    }

    method UpdateClusterToNodeID(cluster: string, node: string, client: string)
      modifies this
      ensures cache == Update(old(cache), cluster, node, client)
    {
      if cluster !in cache {
        cache := cache[cluster := [map[node := client]]];
        assert cache[cluster] == Replace([], node, client);
        return;
      }
      var b := cache[cluster];
      for i := 0 to |b|
        invariant cache == old(cache)
        invariant Replace(b, node, client) == b[..i] + Replace(b[i..], node, client)
      {
        if node in b[i] {
          assert b[i..][1..] == b[i + 1..];
          if b[i][node] == client {
            assert b[..i] + ([b[i]] + b[i + 1..]) == b;
            assert cache == cache[cluster := b];
            return;
          }
          assert b[..i] + ([map[node := client]] + b[i + 1..]) == b[i := map[node := client]];
          cache := cache[cluster := b[i := map[node := client]]];
          return;
        }
        ReplaceStep(b, i, node, client);
      }
      assert b[..|b|] == b && b[|b|..] == [];
      assert Replace(b[|b|..], node, client) == [map[node := client]];
      cache := cache[cluster := b + [map[node := client]]];
    }

    method GetClientToUse(cluster: string, node: string) returns (client: Option<string>)
      ensures client == Find(cache, cluster, node)
    {
      if cluster !in cache { return None; }
      var b := cache[cluster];
      for i := 0 to |b|
        invariant FindIn(b, node) == FindIn(b[i..], node)
      {
        if node in b[i] { return Some(b[i][node]); }
        assert b[i..][1..] == b[i + 1..];
      }
      client := None;
    }

    method AddExportClientNetworkIdentifier(call: Call) returns (ok: bool, tried: seq<string>)
      modifies this
      ensures Outcome(cache, ok, tried) == AddClient(old(cache), call)
    {
      var id := ParseNodeID(call.node);
      if id.None? { return false, []; }
      var fqdn, ip := id.value.fqdn, id.value.ip;
      if call.ignoring { return call.first, [ip]; }
      var client := fqdn;
      var cached := GetClientToUse(call.cluster, call.node);
      if cached.Some? { client := cached.value; }
      tried := [client];
      ok := call.first;
      if !ok {
        client := if client == fqdn then ip else fqdn;
        tried := tried + [client];
        ok := call.second;
      }
      if ok { UpdateClusterToNodeID(call.cluster, call.node, client); }
    }
  }

  lemma ReplaceStep(b: Bucket, i: nat, node: string, client: string)
    requires i < |b| && node !in b[i]
    ensures b[..i] + Replace(b[i..], node, client) == b[..i + 1] + Replace(b[i + 1..], node, client)
  {
    assert b[i..][1..] == b[i + 1..] && b[i..][0] == b[i];
    assert b[..i + 1] == b[..i] + [b[i]];
  }

  // ---- every sequence of calls ----

  function After(cache: Cache, calls: seq<Call>): Cache
    decreases |calls|
  {
    if calls == [] then cache else AddClient(After(cache, calls[..|calls| - 1]), calls[|calls| - 1]).cache
  }

  /** The identifier that the last successful call for the node, not ignoring unresolvable hosts, ended with. */
  function LastAccepted(calls: seq<Call>, cluster: string, node: string): Option<string>
    decreases |calls|
  {
    if calls == [] then None
    else
      var before, call := calls[..|calls| - 1], calls[|calls| - 1];
      var o := AddClient(After(map[], before), call);
      if call.cluster == cluster && call.node == node && !call.ignoring && o.ok && o.tried != []
      then Some(o.tried[|o.tried| - 1])
      else LastAccepted(before, cluster, node)
  }

  /** A cached identifier is one of the two that the node ID names. */
  ghost predicate OwnIdentifiers(cache: Cache) {
    forall c, n :: Find(cache, c, n).Some? ==>
      && ParseNodeID(n).Some?
      && (Find(cache, c, n).value == ParseNodeID(n).value.fqdn || Find(cache, c, n).value == ParseNodeID(n).value.ip)
  }

  lemma CallKeepsShape(cache: Cache, call: Call)
    requires Valid(cache) && OwnIdentifiers(cache)
    ensures Valid(AddClient(cache, call).cache) && OwnIdentifiers(AddClient(cache, call).cache)
  {
    var o := AddClient(cache, call);
    if o.ok && !call.ignoring {
      assert ParseNodeID(call.node).Some?;
      UpdateActsAsMap(cache, call.cluster, call.node, o.tried[|o.tried| - 1]);
    }
  }

  /** In every run each node is cached at most once per cluster, under its FQDN or its IP, and the cache
      holds exactly what the array accepted last. */
  lemma {:induction false} CacheHoldsLastAccepted(calls: seq<Call>, cluster: string, node: string)
    ensures Valid(After(map[], calls)) && OwnIdentifiers(After(map[], calls))
    ensures Find(After(map[], calls), cluster, node) == LastAccepted(calls, cluster, node)
    decreases |calls|
  {
    if calls != [] {
      var before, call := calls[..|calls| - 1], calls[|calls| - 1];
      CacheHoldsLastAccepted(before, cluster, node);
      var cache := After(map[], before);
      CallKeepsShape(cache, call);
      var o := AddClient(cache, call);
      if o.ok && !call.ignoring {
        UpdateActsAsMap(cache, call.cluster, call.node, o.tried[|o.tried| - 1]);
      }
    }
  }

  /** After any run, a call that does not ignore unresolvable hosts fails only when the array refuses both the
      FQDN and the IP of the node, and a failure leaves the cache alone. */
  lemma FailureTriedBoth(calls: seq<Call>, call: Call)
    requires !call.ignoring && ParseNodeID(call.node).Some?
    ensures var o := AddClient(After(map[], calls), call);
            var id := ParseNodeID(call.node).value;
            && (o.ok <==> call.first || call.second)
            && (!o.ok ==> multiset(o.tried) == multiset{id.fqdn, id.ip} && o.cache == After(map[], calls))
  {
    CacheHoldsLastAccepted(calls, call.cluster, call.node);
  }

  /** The order of trying, after any run: while nothing was accepted for the node the FQDN comes first and the IP
      second; an ignoring call offers the IP alone and leaves the cache as it is; a node ID that does not parse
      offers nothing. */
  lemma FqdnIsTriedFirst(calls: seq<Call>, call: Call)
    ensures var o := AddClient(After(map[], calls), call);
            && (ParseNodeID(call.node).None? ==> o.tried == [] && !o.ok && o.cache == After(map[], calls))
            && (ParseNodeID(call.node).Some? ==>
                  var id := ParseNodeID(call.node).value;
                  && (call.ignoring ==> o.tried == [id.ip] && o.ok == call.first && o.cache == After(map[], calls))
                  && (!call.ignoring && LastAccepted(calls, call.cluster, call.node).None? ==>
                        o.tried == if call.first then [id.fqdn] else [id.fqdn, id.ip]))
  {
    CacheHoldsLastAccepted(calls, call.cluster, call.node);
  }

  /** What worked is tried first the next time. */
  lemma AcceptedIsTriedNext(calls: seq<Call>, call: Call, next: Call)
    requires !call.ignoring && !next.ignoring && call.cluster == next.cluster && call.node == next.node
    requires AddClient(After(map[], calls), call).ok
    ensures var o := AddClient(After(map[], calls), call);
            o.tried != [] && AddClient(o.cache, next).tried != []
            && AddClient(o.cache, next).tried[0] == o.tried[|o.tried| - 1]
  {
    CacheHoldsLastAccepted(calls, call.cluster, call.node);
    var cache := After(map[], calls);
    var o := AddClient(cache, call);
    UpdateActsAsMap(cache, call.cluster, call.node, o.tried[|o.tried| - 1]);
  }
}
