/** Runs of the cache in which a replica answers "not found" for a key that was set.
    In one the replica is in service before its copy has arrived; in the other the
    time to live asked for is not over yet, but was cut to whole milliseconds. */
module ClusterHazard {
  import opened Basics
  import opened Shard
  import opened ShardMap
  import opened Cluster
  import opened ClusterSafety

  ghost predicate TwoNodes(start: Start, shardOf: ShardOf) {
    start == Start({"a", "b"}, map[1 := ["a"]]) && shardOf("k") == 1
  }

  /** Node b hosts nothing, and the key has been set with this time to live. */
  ghost predicate KeyIsSet(w: World, ttl: int) {
    && w.nodes.Keys == {"a", "b"} && w.nodes["b"] == NodeState(map[], Waiting) && w.mapping == map[1 := ["a"]]
    && w.updater.Quiet? && w.client.NoClient? && w.now == 0
    && "k" in w.facts && w.facts["k"].call == SetCall(0, 0, ttl) && w.facts["k"].copies == 0
  }

  lemma Begins(start: Start, shardOf: ShardOf) returns (w: World)
    requires TwoNodes(start, shardOf)
    ensures Reachable(start, shardOf, w) && w == Init(start.nodes, start.mapping)
    ensures w.nodes.Keys == {"a", "b"} && w.nodes["b"] == NodeState(map[], Waiting) && 1 in w.nodes["a"].shards
  {
    w := Init(start.nodes, start.mapping);
    assert ValidRun(w, shardOf, []) && After(w, shardOf, []) == w;
    assert Hosts(start.mapping, "b") == {} && 1 in Hosts(start.mapping, "a");
  }

  lemma SetsKey(start: Start, shardOf: ShardOf, ttl: int) returns (w: World)
    requires TwoNodes(start, shardOf)
    ensures Reachable(start, shardOf, w) && KeyIsSet(w, ttl)
  {
    w := Begins(start, shardOf);
    assert NodesForShard(w.mapping, 1) == ["a"] && Cluster.Replicas(w, 1) == {"a"};
    w := Reach(start, shardOf, w, BeginSet("k", "v", ttl));
    w := Reach(start, shardOf, w, NodeSet("a"));
    assert w.client.left == {};
    w := Reach(start, shardOf, w, EndSet);
  }

  lemma AddingIsGraceful(before: Mapping, after: Mapping)
    requires before == map[1 := ["a"]] && after == map[1 := ["a", "b"]]
    ensures Graceful(before, after)
  {
    forall s ensures GracefulFor(NodesForShard(before, s), NodesForShard(after, s)) {
      if s == 1 {
        assert "a" in ["a"] && "a" in ["a", "b"];
      }
    }
  }

  /** While node b is handling the map that adds it, the key is live and b hosts
      its shard, but b answers that it does not know the key. */
  lemma MissesWhileCopying(start: Start, shardOf: ShardOf) returns (w: World)
    requires TwoNodes(start, shardOf)
    ensures Reachable(start, shardOf, w) && "b" in w.nodes && "b" in NodesForShard(w.mapping, shardOf("k"))
    ensures "k" in w.facts && w.now < w.facts["k"].notBefore
    ensures NodeGet(w.nodes["b"], shardOf, "k", w.now) == Answer(None)
  {
    w := SetsKey(start, shardOf, 5 * NS_PER_MS);
    ReachablePromises(start, shardOf, w);
    assert w.facts["k"].notBefore == 5 * NS_PER_MS;
    var next := map[1 := ["a", "b"]];
    AddingIsGraceful(w.mapping, next);
    w := Reach(start, shardOf, w, Publish(next));
    w := Reach(start, shardOf, w, Notify("b"));
    w := Reach(start, shardOf, w, BeginHandling("b"));
    assert "b" in next[1] && 1 in Hosts(next, "b");
  }

  /** Whatever fraction of a millisecond a time to live has, there is a run in which
      the key is gone before it is over. */
  lemma ExpiresEarly(start: Start, shardOf: ShardOf, ttl: int) returns (w: World)
    requires TwoNodes(start, shardOf) && ttl >= 0 && ttl % NS_PER_MS != 0
    ensures Reachable(start, shardOf, w) && "a" in w.nodes && "a" in NodesForShard(w.mapping, shardOf("k"))
    ensures "k" in w.facts && w.facts["k"].call.ttl == ttl && w.now < w.facts["k"].call.start + ttl
    ensures NodeGet(w.nodes["a"], shardOf, "k", w.now) == Answer(None)
  {
    CutLoses(ttl);
    w := SetsKey(start, shardOf, ttl);
    w := Reach(start, shardOf, w, Tick(Whole(ttl)));
    assert NodesForShard(w.mapping, 1) == ["a"];
    ReadYourWrites(start, shardOf, w, "a", "k");
  }
}
