/** What a client reads: its Get over the replicas the shard map names. */
module ClientReads {
  import opened Shard
  import opened ShardMap
  import opened Cluster
  import opened ClusterSafety
  import C = Client

  /** How a node answers the client; an error moves the client on to the next one. */
  function AskNode(w: World, shardOf: ShardOf, key: Key, n: Node): C.Reply {
    if n !in w.nodes then C.Failed(0)
    else
      match NodeGet(w.nodes[n], shardOf, key, w.now)
      case NotHosted => C.Failed(5)
      case EmptyKey => C.Failed(3)
      case Answer(found) => C.Answered(found)
  }

  /** Whichever replica it starts with, a client reads the last set value until its
      time is up, never any other value, and nothing once the latest time is over,
      whenever no map change under way concerns the shard. */
  method Get(ghost start: Start, w: World, shardOf: ShardOf, key: Key, index: nat) returns (r: C.Outcome)
    requires Reachable(start, shardOf, w) && Stable(w, shardOf(key)) && key in w.facts
    requires index < |NodesForShard(w.mapping, shardOf(key))|
    ensures r.Got?
    ensures w.now < w.facts[key].notBefore ==> r.found == Some(w.facts[key].value)
    ensures r.found.Some? ==> r.found.value == w.facts[key].value
    ensures Latest(w.facts[key]) <= w.now ==> r.found == None
  {
    var nodes := NodesForShard(w.mapping, shardOf(key));
    forall n | n in nodes
      ensures AskNode(w, shardOf, key, n).Answered?
      ensures var found := AskNode(w, shardOf, key, n).found;
              && (w.now < w.facts[key].notBefore ==> found == Some(w.facts[key].value))
              && (found.Some? ==> found.value == w.facts[key].value)
              && (Latest(w.facts[key]) <= w.now ==> found == None)
    {
      GracefulMovesLoseNothing(start, shardOf, w, n, key);
    }
    assert nodes[index] in nodes;
    var attempts;
    r, attempts := C.Get(nodes, index, n => AskNode(w, shardOf, key, n));
  }

  /** Read your writes through the client: until start plus the whole milliseconds of
      the time to live it finds the value it set; if the shard was not copied since,
      it finds nothing from end plus those on. */
  method GetOwnWrite(ghost start: Start, w: World, shardOf: ShardOf, key: Key, index: nat) returns (r: C.Outcome)
    requires Reachable(start, shardOf, w) && Stable(w, shardOf(key)) && key in w.facts
    requires index < |NodesForShard(w.mapping, shardOf(key))|
    ensures var call := w.facts[key].call;
            && (w.now < call.start + Whole(call.ttl) ==> r == C.Got(Some(w.facts[key].value)))
            && (w.facts[key].copies == 0 && call.end + Whole(call.ttl) <= w.now ==> r == C.Got(None))
  {
    ReachablePromises(start, shardOf, w);
    ReachableInv(start, shardOf, w);
    r := Get(start, w, shardOf, key, index);
  }

  /** At any moment, also during a map change: a client gets an answer for a live key,
      because nodes that do not host the shard yet, or no longer, make it move on. It
      is the last set value, unless it comes from a node still copying the shard. */
  method GetAnytime(ghost start: Start, w: World, shardOf: ShardOf, key: Key, index: nat) returns (r: C.Outcome, ghost n: Node)
    requires Reachable(start, shardOf, w) && key in w.facts && w.now < w.facts[key].notBefore
    requires index < |NodesForShard(w.mapping, shardOf(key))|
    ensures n in w.nodes && n in NodesForShard(w.mapping, shardOf(key)) && shardOf(key) in w.nodes[n].shards
    ensures r == C.Got(if BeingCopied(w.nodes[n], shardOf(key)) then None else Some(w.facts[key].value))
  {
    var nodes := NodesForShard(w.mapping, shardOf(key));
    forall x | x in nodes
      ensures x in w.nodes
      ensures AskNode(w, shardOf, key, x) ==
              if shardOf(key) !in w.nodes[x].shards then C.Failed(5)
              else C.Answered(if BeingCopied(w.nodes[x], shardOf(key)) then None else Some(w.facts[key].value))
    {
      AnswersAnytime(start, w, shardOf, key, x);
    }
    ghost var serving := SomeReplicaAlwaysServes(start, shardOf, w, key);
    assert AskNode(w, shardOf, key, serving).Answered?;
    var attempts;
    r, attempts := C.Get(nodes, index, x => AskNode(w, shardOf, key, x));
    n := nodes[C.Turn(index, attempts - 1, |nodes|)];
  }

  lemma AnswersAnytime(start: Start, w: World, shardOf: ShardOf, key: Key, n: Node)
    requires Reachable(start, shardOf, w) && key in w.facts && w.now < w.facts[key].notBefore
    requires n in NodesForShard(w.mapping, shardOf(key))
    ensures n in w.nodes
    ensures AskNode(w, shardOf, key, n) ==
            if shardOf(key) !in w.nodes[n].shards then C.Failed(5)
            else C.Answered(if BeingCopied(w.nodes[n], shardOf(key)) then None else Some(w.facts[key].value))
  {
    ReachableInv(start, shardOf, w);
    var s := shardOf(key);
    if s in w.nodes[n].shards {
      assert StoreOk(w, shardOf, n, s);
      if !BeingCopied(w.nodes[n], s) {
        ReplicaAnswers(w, shardOf, n, key);
      }
    }
  }
}
