/** Which node hosts which shard. */
module ShardMap {
  import opened Basics

  type Node = string
  type Mapping = map<int, seq<Node>>

  function NodesForShard(m: Mapping, shard: int): seq<Node> {
    if shard in m then m[shard] else []
  }

  function Hosts(m: Mapping, node: Node): set<int> {
    set s | s in m && node in m[s]
  }

  /** A change under which no data is lost: a shard that was hosted keeps one of
      its nodes, and gains at most one new node. */
  ghost predicate GracefulFor(before: seq<Node>, after: seq<Node>) {
    && (before != [] ==> exists n :: n in before && n in after)
    && (forall a, b | a in after && b in after && a !in before && b !in before :: a == b)
  }

  ghost predicate Graceful(before: Mapping, after: Mapping) {
    forall s :: GracefulFor(NodesForShard(before, s), NodesForShard(after, s))
  }

  // ------------------------------------------------------------ validity

  datatype ShardMapState = ShardMapState(nodes: set<Node>, shardsToNodes: Mapping, numShards: int)

  ghost predicate ListOk(nodes: seq<Node>, known: set<Node>) {
    Distinct(nodes) && forall n | n in nodes :: n in known
  }

  /** Shards in 1..numShards, known nodes, no node twice for a shard. */
  ghost predicate WellPlaced(st: ShardMapState) {
    forall s | s in st.shardsToNodes :: 1 <= s <= st.numShards && ListOk(st.shardsToNodes[s], st.nodes)
  }

  lemma SomeShard(shards: set<int>)
    ensures shards == {} || exists s :: s in shards
  {
    if forall s: int :: s !in shards {
      assert shards == {};
    }
  }

  lemma {:induction false} Pigeonhole(shards: set<int>, n: nat)
    requires forall s | s in shards :: 1 <= s <= n
    ensures |shards| <= n
  {
    if n == 0 {
      assert shards == {} by {
        SomeShard(shards);
      }
    } else {
      Pigeonhole(shards - {n}, n - 1);
      assert shards <= (shards - {n}) + {n};
      assert |shards| <= |shards - {n}| + 1;
    }
  }

  method CheckNodes(nodes: seq<Node>, known: set<Node>) returns (b: bool)
    ensures b == ListOk(nodes, known)
  {
    var seen: set<Node> := {};
    for i := 0 to |nodes|
      invariant ListOk(nodes[..i], known)
      invariant seen == set n | n in nodes[..i]
    {
      if nodes[i] !in known {
        return false;
      }
      if nodes[i] in seen {
        var j :| 0 <= j < i && nodes[..i][j] == nodes[i];
        assert nodes[j] == nodes[i];
        return false;
      }
      seen := seen + {nodes[i]};
      assert nodes[..i + 1] == nodes[..i] + [nodes[i]];
    }
    assert nodes[..|nodes|] == nodes;
    b := true;
  }

  /** The size test is implied by the others, so validity is exactly placement,
      for any number of shards that is not negative. */
  method IsValid(st: ShardMapState) returns (b: bool)
    ensures b <==> st.numShards >= 0 && WellPlaced(st)
  {
    if |st.shardsToNodes| > st.numShards {
      if st.numShards >= 0 && WellPlaced(st) {
        Pigeonhole(st.shardsToNodes.Keys, st.numShards);
      }
      return false;
    }
    var left := st.shardsToNodes.Keys;
    while left != {}
      invariant left <= st.shardsToNodes.Keys
      invariant forall s | s in st.shardsToNodes && s !in left ::
                  1 <= s <= st.numShards && ListOk(st.shardsToNodes[s], st.nodes)
    {
      SomeShard(left);
      var s :| s in left;
      if s < 1 || s > st.numShards {
        return false;
      }
      var ok := CheckNodes(st.shardsToNodes[s], st.nodes);
      if !ok {
        return false;
      }
      left := left - {s};
    }
    b := true;
  }

  /** The shards of a node, each once if no list names a node twice. */
  method ShardsForNode(m: Mapping, node: Node) returns (shards: seq<int>)
    ensures forall s :: s in shards <==> s in Hosts(m, node)
    ensures (forall s | s in m :: Distinct(m[s])) ==> forall i, j | 0 <= i < j < |shards| :: shards[i] != shards[j]
  {
    shards := [];
    var left := m.Keys;
    while left != {}
      invariant left <= m.Keys
      invariant forall s :: s in shards <==> s in Hosts(m, node) && s !in left
      invariant (forall s | s in m :: Distinct(m[s])) ==> forall i, j | 0 <= i < j < |shards| :: shards[i] != shards[j]
    {
      SomeShard(left);
      var s :| s in left;
      ghost var before := shards;
      var nodes := m[s];
      for i := 0 to |nodes|
        invariant forall x :: x in shards <==> x in before || (x == s && node in nodes[..i])
        invariant Distinct(nodes) ==> shards == if node in nodes[..i] then before + [s] else before
      {
        assert nodes[..i + 1] == nodes[..i] + [nodes[i]];
        if nodes[i] == node {
          shards := shards + [s];
        }
      }
      assert nodes[..|nodes|] == nodes;
      left := left - {s};
    }
  }
}
