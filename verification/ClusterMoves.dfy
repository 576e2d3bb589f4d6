/** Moves from beginning to end: every map that a sequence of moves publishes can be
    carried through the cluster, and at the end every live key is served by every
    replica of its shard. */
module ClusterMoves {
  import opened Shard
  import opened ShardMap
  import opened Replicas
  import opened Cluster
  import opened ClusterSafety

  /** What carrying a map through leaves alone: time, client, and what is promised. */
  ghost predicate Kept(w: World, w': World) {
    && w'.now == w.now && w'.client == w.client && w'.nodes.Keys == w.nodes.Keys
    && w'.facts.Keys == w.facts.Keys
    && forall k | k in w.facts :: w'.facts[k].value == w.facts[k].value && w'.facts[k].notBefore == w.facts[k].notBefore
  }

  /** Only node n moved on. */
  ghost predicate OnlyNode(w: World, w': World, n: Node) {
    && Kept(w, w') && w'.mapping == w.mapping && w'.updater == w.updater
    && forall x | x in w.nodes && x != n :: w'.nodes[x] == w.nodes[x]
  }

  /** A node that is fetching gets all its shards: from a node that has the shard,
      or nothing if there is none. */
  lemma FetchesAll(start: Start, shardOf: ShardOf, w: World, n: Node, left: set<int>) returns (w': World)
    requires Reachable(start, shardOf, w) && n in w.nodes && w.nodes[n].handler.Fetching?
    requires left == w.nodes[n].handler.sources.Keys - w.nodes[n].handler.got.Keys
    ensures Reachable(start, shardOf, w') && OnlyNode(w, w', n) && n in w'.nodes && w'.nodes[n].handler.Fetching?
    ensures w'.nodes[n].handler.sources.Keys - w'.nodes[n].handler.got.Keys == {}
    decreases |left|
  {
    if left == {} {
      w' := w;
    } else {
      SomeShard(left);
      var s :| s in left;
      var next := FetchesOne(start, shardOf, w, n, s);
      OneFewer(w.nodes[n].handler.sources.Keys, w.nodes[n].handler.got.Keys, s);
      w' := FetchesAll(start, shardOf, next, n, left - {s});
    }
  }

  lemma OneFewer(asked: set<int>, got: set<int>, s: int)
    ensures asked - (got + {s}) == asked - got - {s}
  {
  }

  lemma InstallsAll(start: Start, shardOf: ShardOf, w: World, n: Node) returns (w': World)
    requires Reachable(start, shardOf, w) && n in w.nodes && w.nodes[n].handler.Fetching?
    ensures Reachable(start, shardOf, w') && OnlyNode(w, w', n) && n in w'.nodes && w'.nodes[n].handler.Waiting?
  {
    var h := w.nodes[n].handler;
    var full := FetchesAll(start, shardOf, w, n, h.sources.Keys - h.got.Keys);
    GotAreAsked(start, shardOf, full, n);
    NothingLeft(full.nodes[n].handler.sources.Keys, full.nodes[n].handler.got.Keys);
    w' := Reach(start, shardOf, full, Install(n));
  }

  lemma NothingLeft(asked: set<int>, got: set<int>)
    requires got <= asked && asked - got == {}
    ensures got == asked
  {
    forall s | s in asked ensures s in got {
      assert s !in asked - got;
    }
  }

  lemma GotAreAsked(start: Start, shardOf: ShardOf, w: World, n: Node)
    requires Reachable(start, shardOf, w) && n in w.nodes && w.nodes[n].handler.Fetching?
    ensures w.nodes[n].handler.got.Keys <= w.nodes[n].handler.sources.Keys
  {
    ReachableInv(start, shardOf, w);
    assert NodeInStep(w, n);
  }

  lemma FetchesOne(start: Start, shardOf: ShardOf, w: World, n: Node, s: int) returns (w': World)
    requires Reachable(start, shardOf, w) && n in w.nodes && w.nodes[n].handler.Fetching?
    requires s in w.nodes[n].handler.sources && s !in w.nodes[n].handler.got
    ensures Reachable(start, shardOf, w') && OnlyNode(w, w', n) && n in w'.nodes && w'.nodes[n].handler.Fetching?
    ensures w'.nodes[n].handler.sources == w.nodes[n].handler.sources
    ensures w'.nodes[n].handler.got.Keys == w.nodes[n].handler.got.Keys + {s}
  {
    if source :| source in w.nodes[n].handler.sources[s] && source != n && source in w.nodes && s in w.nodes[source].shards {
      w' := Reach(start, shardOf, w, Fetch(n, s, source));
    } else {
      w' := Reach(start, shardOf, w, FetchNothing(n, s));
    }
  }

  /** Whatever a node is doing, it can get back to waiting. */
  lemma GetsReady(start: Start, shardOf: ShardOf, w: World, n: Node) returns (w': World)
    requires Reachable(start, shardOf, w) && n in w.nodes
    ensures Reachable(start, shardOf, w') && OnlyNode(w, w', n) && n in w'.nodes && w'.nodes[n].handler.Waiting?
  {
    w' := w;
    if w'.nodes[n].handler.Notified? {
      w' := Reach(start, shardOf, w', BeginHandling(n));
    }
    if w'.nodes[n].handler.Fetching? {
      w' := InstallsAll(start, shardOf, w', n);
    }
  }

  /** One round of notifications, node by node. */
  lemma NotifiesAll(start: Start, shardOf: ShardOf, w: World) returns (w': World)
    requires Reachable(start, shardOf, w) && w.updater.Updating? && w.updater.left <= w.nodes.Keys
    ensures Reachable(start, shardOf, w') && Kept(w, w') && w'.mapping == w.mapping
    ensures w'.updater == w.updater.(left := {})
    decreases |w.updater.left|
  {
    if w.updater.left == {} {
      w' := w;
    } else {
      var n :| n in w.updater.left;
      var ready := GetsReady(start, shardOf, w, n);
      var next := Reach(start, shardOf, ready, Notify(n));
      w' := NotifiesAll(start, shardOf, next);
    }
  }

  /** A graceful map over the cluster's nodes can be published when no other change
      is under way, and the update returns. */
  lemma UpdateCompletes(start: Start, shardOf: ShardOf, w: World, next: Mapping) returns (w': World)
    requires Reachable(start, shardOf, w) && Enabled(w, shardOf, Publish(next))
    ensures Reachable(start, shardOf, w') && w'.updater.Quiet? && w'.mapping == next && Kept(w, w')
  {
    w' := Reach(start, shardOf, w, Publish(next));
    w' := NotifiesAll(start, shardOf, w');
    w' := Reach(start, shardOf, w', NotifyAgain);
    w' := NotifiesAll(start, shardOf, w');
    w' := Reach(start, shardOf, w', UpdateReturns);
  }

  ghost predicate NamesOnly(m: Mapping, nodes: set<Node>) {
    forall s, n | s in m && n in m[s] :: n in nodes
  }

  function Last(first: Mapping, published: seq<Mapping>): Mapping {
    if published == [] then first else published[|published| - 1]
  }

  /** The maps one call after another publishes are one chain. */
  lemma {:induction false} ChainsJoin(first: Mapping, a: seq<Mapping>, b: seq<Mapping>)
    requires GracefulChain(first, a) && GracefulChain(Last(first, a), b)
    ensures GracefulChain(first, a + b) && Last(first, a + b) == Last(Last(first, a), b)
    decreases |a|
  {
    if a == [] {
      assert a + b == b;
    } else {
      assert (a + b)[1..] == a[1..] + b;
      ChainsJoin(a[0], a[1..], b);
    }
  }

  datatype Move = Move(shard: int, src: Node, dst: Node)

  /** One move after another, each from the map the last one left. */
  method MoveShards(known: set<Node>, m: Mapping, numShards: int, moves: seq<Move>) returns (published: seq<Mapping>)
    requires WellPlaced(ShardMapState(known, m, numShards))
    requires forall move | move in moves :: 1 <= move.shard <= numShards && move.dst in known
    ensures GracefulChain(m, published) && WellPlaced(ShardMapState(known, Last(m, published), numShards))
    ensures forall p | p in published :: WellPlaced(ShardMapState(known, p, numShards))
  {
    published := [];
    for i := 0 to |moves|
      invariant GracefulChain(m, published) && WellPlaced(ShardMapState(known, Last(m, published), numShards))
      invariant forall p | p in published :: WellPlaced(ShardMapState(known, p, numShards))
    {
      assert moves[i] in moves;
      var ok, more := MoveShard(known, Last(m, published), numShards, moves[i].shard, moves[i].src, moves[i].dst);
      ChainsJoin(m, published, more);
      assert Last(Last(m, published), more) == if more == [] then Last(m, published) else more[|more| - 1];
      published := published + more;
    }
  }

  /** Each map of a chain can be published in its turn and carried through. */
  lemma {:induction false} ChainCompletes(start: Start, shardOf: ShardOf, w: World, published: seq<Mapping>) returns (w': World)
    requires Reachable(start, shardOf, w) && w.updater.Quiet? && w.client.NoClient?
    requires GracefulChain(w.mapping, published) && forall m | m in published :: NamesOnly(m, w.nodes.Keys)
    ensures Reachable(start, shardOf, w') && w'.updater.Quiet? && w'.mapping == Last(w.mapping, published) && Kept(w, w')
    decreases |published|
  {
    if published == [] {
      w' := w;
    } else {
      assert NamesOnly(published[0], w.nodes.Keys);
      var next := UpdateCompletes(start, shardOf, w, published[0]);
      w' := ChainCompletes(start, shardOf, next, published[1..]);
    }
  }

  /** Moves serve: for the maps published by any sequence of moves, each a graceful
      chain of valid maps, the cluster can carry them all through, and then every
      replica the last map names for a key's shard serves every live key. */
  lemma MovesServe(start: Start, shardOf: ShardOf, w: World, published: seq<Mapping>, numShards: int) returns (w': World)
    requires Reachable(start, shardOf, w) && w.updater.Quiet? && w.client.NoClient?
    requires GracefulChain(w.mapping, published)
    requires forall m | m in published :: WellPlaced(ShardMapState(w.nodes.Keys, m, numShards))
    ensures Reachable(start, shardOf, w') && w'.updater.Quiet? && w'.mapping == Last(w.mapping, published) && Kept(w, w')
    ensures forall key, n | key in w.facts && w.now < w.facts[key].notBefore
                            && n in NodesForShard(w'.mapping, shardOf(key)) ::
              n in w'.nodes && NodeGet(w'.nodes[n], shardOf, key, w.now) == Answer(Some(w.facts[key].value))
  {
    forall m | m in published ensures NamesOnly(m, w.nodes.Keys) {
      assert WellPlaced(ShardMapState(w.nodes.Keys, m, numShards));
    }
    w' := ChainCompletes(start, shardOf, w, published);
    forall key, n | key in w.facts && w.now < w.facts[key].notBefore && n in NodesForShard(w'.mapping, shardOf(key))
      ensures n in w'.nodes && NodeGet(w'.nodes[n], shardOf, key, w.now) == Answer(Some(w.facts[key].value))
    {
      GracefulMovesLoseNothing(start, shardOf, w', n, key);
    }
  }
}
