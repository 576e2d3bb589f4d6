/** A cache node in the shape it is written: an object with a map of shards that
    its handlers change in place. Each method is tied to the function of the
    cluster model it carries out. */
module KvServer {
  import opened Basics
  import opened Shard
  import opened ShardMap
  import opened Cluster
  import opened ClusterSafety
  import C = Client

  datatype Error = ShardNotHosted | KeyEmpty

  datatype Result<+T> = Ok(value: T) | Err(error: Error)

  class Server {
    const nodeName: Node
    const shardOf: ShardOf
    var shards: map<int, Data>

    constructor (name: Node, hash: ShardOf)
      ensures nodeName == name && shardOf == hash && shards == map[]
    {
      nodeName, shardOf, shards := name, hash, map[];
    }

    ghost function Idle(): NodeState
      reads this
    {
      NodeState(shards, Waiting)
    }

    method Get(key: Key, now: int) returns (r: Result<Option<Value>>)
      ensures r == Err(ShardNotHosted) <==> shardOf(key) !in shards
      ensures r == Err(KeyEmpty) <==> shardOf(key) in shards && key == ""
      ensures match NodeGet(Idle(), shardOf, key, now)
              case NotHosted => r == Err(ShardNotHosted)
              case EmptyKey => r == Err(KeyEmpty)
              case Answer(found) => r == Ok(found)
    {
      var shard := shardOf(key);
      if shard !in shards {
        return Err(ShardNotHosted);
      }
      if key == "" {
        return Err(KeyEmpty);
      }
      var data := shards[shard];
      if key !in data || HasExpired(data[key], now) {
        return Ok(None);
      }
      r := Ok(Some(data[key].value));
    }

    /** A refused Set changes nothing; an accepted one is what the node then
        answers, until the time to live is over and not a moment longer. */
    method Set(key: Key, value: Value, ttlMs: int, now: int) returns (r: Result<()>)
      modifies this
      ensures r == if shardOf(key) !in old(shards) then Err(ShardNotHosted) else if key == "" then Err(KeyEmpty) else Ok(())
      ensures r.Err? ==> shards == old(shards)
      ensures r.Ok? ==>
                && shards == old(shards)[shardOf(key) := old(shards)[shardOf(key)][key := KvObject(value, now, ttlMs)]]
                && forall t | t >= now ::
                     NodeGet(Idle(), shardOf, key, t) == Answer(if t < now + ttlMs * NS_PER_MS then Some(value) else None)
    {
      var shard := shardOf(key);
      if shard !in shards {
        return Err(ShardNotHosted);
      }
      if key == "" {
        return Err(KeyEmpty);
      }
      shards := shards[shard := shards[shard][key := KvObject(value, now, ttlMs)]];
      forall t | t >= now
        ensures NodeGet(Idle(), shardOf, key, t) == Answer(if t < now + ttlMs * NS_PER_MS then Some(value) else None)
      {
        ExpiredIffDeadline(KvObject(value, now, ttlMs), t);
      }
      r := Ok(());
    }

    method Delete(key: Key) returns (r: Result<()>)
      modifies this
      ensures r == if shardOf(key) !in old(shards) then Err(ShardNotHosted) else if key == "" then Err(KeyEmpty) else Ok(())
      ensures r.Err? ==> shards == old(shards)
      ensures r.Ok? ==>
                && shards == old(shards)[shardOf(key) := old(shards)[shardOf(key)] - {key}]
                && forall t :: NodeGet(Idle(), shardOf, key, t) == Answer(None)
    {
      var shard := shardOf(key);
      if shard !in shards {
        return Err(ShardNotHosted);
      }
      if key == "" {
        return Err(KeyEmpty);
      }
      shards := shards[shard := shards[shard] - {key}];
      r := Ok(());
    }

    /** The live part of a shard, with the whole milliseconds each key has left. */
    method GetShardContents(shard: int, now: int) returns (r: Result<Contents>)
      ensures r == if shard in shards then Ok(ContentsOf(shards[shard], now)) else Err(ShardNotHosted)
    {
      if shard !in shards {
        return Err(ShardNotHosted);
      }
      var data := shards[shard];
      var values: Contents := map[];
      var left := data.Keys;
      while left != {}
        invariant left <= data.Keys
        invariant values == map k | k in data && k !in left && !HasExpired(data[k], now) :: RemainingOf(data[k], now)
      {
        var k :| k in left;
        if !HasExpired(data[k], now) {
          values := values[k := Remaining(data[k].value, data[k].ttlMs - Milliseconds(now - data[k].storedTime))];
        }
        left := left - {k};
      }
      assert values == ContentsOf(data, now);
      r := Ok(values);
    }

    /** The first half of handling a new map, under the lock: drop what is no
        longer wanted, host what is new, and say what must be fetched. */
    method BeginUpdate(m: Mapping) returns (sources: map<int, seq<Node>>)
      modifies this
      ensures shards == Handling(old(Idle()), m, nodeName).shards
      ensures sources == map s | s in Added(old(shards), m, nodeName) :: NodesForShard(m, s)
    {
      var wanted := Hosts(m, nodeName);
      var added, removed := Split(wanted, shards.Keys);
      Drop(removed);
      sources := Host(added, m);
      assert shards == Rehosted(old(shards), m, nodeName);
    }

    method Drop(removed: set<int>)
      modifies this
      ensures shards == old(shards) - removed
    {
      var left := removed;
      while left != {}
        invariant left <= removed && shards == old(shards) - (removed - left)
      {
        SomeShard(left);
        var s :| s in left;
        shards := shards - {s};
        left := left - {s};
      }
    }

    /** New shards are in service, empty, before anything has been fetched. */
    method Host(added: set<int>, m: Mapping) returns (sources: map<int, seq<Node>>)
      modifies this
      ensures shards == old(shards) + Opened(added) && sources == SourcesOf(added, m)
    {
      ghost var before := shards;
      sources := map[];
      var left := added;
      assert added - left == {};
      while left != {}
        invariant left <= added
        invariant shards == before + Opened(added - left) && sources == SourcesOf(added - left, m)
      {
        SomeShard(left);
        var s :| s in left;
        OpenOneMore(before, added - left, s, m);
        shards := shards[s := map[]];
        sources := sources[s := NodesForShard(m, s)];
        assert added - (left - {s}) == added - left + {s};
        left := left - {s};
      }
      assert added - left == added;
    }

    /** Asks the other nodes in turn for a shard, starting anywhere. It brings back what
        some other node has, if any node but this one answers; else nothing. */
    method FetchShardContent(nodes: seq<Node>, index: nat, ask: Node -> Option<Contents>) returns (values: Contents)
      requires index < |nodes|
      ensures if exists n :: n in nodes && n != nodeName && ask(n).Some?
              then exists n :: n in nodes && n != nodeName && ask(n) == Some(values)
              else values == map[]
    {
      for i := 0 to |nodes|
        invariant forall j | 0 <= j < i ::
            var n := nodes[C.Turn(index, j, |nodes|)]; n == nodeName || ask(n) == None
      {
        var node := nodes[C.Turn(index, i, |nodes|)];
        if node != nodeName {
          var answer := ask(node);
          if answer.Some? {
            assert node in nodes;
            return answer.value;
          }
        }
      }
      forall n | n in nodes ensures n == nodeName || ask(n) == None {
        var p :| 0 <= p < |nodes| && nodes[p] == n;
        var i := C.TurnsCover(index, p, |nodes|);
      }
      values := map[];
    }

    /** The second half: every value that came back is stored under the shard its
        key hashes to, which is always one the node hosts. */
    method InstallResults(got: map<int, Contents>, now: int)
      requires forall s | s in got :: s in shards
      requires forall s, k | s in got && k in got[s] :: shardOf(k) == s
      modifies this
      ensures shards == Installed(old(shards), got, now)
    {
      ghost var before := shards;
      var left := got.Keys;
      while left != {}
        invariant left <= got.Keys
        invariant shards == map s | s in before ::
                              if s in got && s !in left then before[s] + ArrivedAll(got[s], now) else before[s]
      {
        SomeShard(left);
        var s :| s in left;
        InstallOne(s, got[s], now);
        left := left - {s};
      }
    }

    method InstallOne(ghost s: int, values: Contents, now: int)
      requires s in shards && forall k | k in values :: shardOf(k) == s
      modifies this
      ensures shards == old(shards)[s := old(shards)[s] + ArrivedAll(values, now)]
    {
      ghost var before := shards;
      var left := values.Keys;
      while left != {}
        invariant left <= values.Keys
        invariant s in shards && shards == before[s := shards[s]]
        invariant shards[s] == before[s] + map k | k in values && k !in left :: Arrived(values[k], now)
      {
        var k :| k in left;
        var target := shardOf(k);
        shards := shards[target := shards[target][k := KvObject(values[k].value, now, values[k].ttlMs)]];
        left := left - {k};
      }
      assert (map k | k in values && k !in left :: Arrived(values[k], now)) == ArrivedAll(values, now);
    }
  }

  function Opened(added: set<int>): map<int, Data> {
    map s | s in added :: map[]
  }

  function SourcesOf(added: set<int>, m: Mapping): map<int, seq<Node>> {
    map s | s in added :: NodesForShard(m, s)
  }

  lemma OpenOneMore(before: map<int, Data>, done: set<int>, s: int, m: Mapping)
    ensures (before + Opened(done))[s := map[]] == before + Opened(done + {s})
    ensures SourcesOf(done, m)[s := NodesForShard(m, s)] == SourcesOf(done + {s}, m)
  {
  }

  function AskContents(w: World, shard: int, n: Node): Option<Contents> {
    if n in w.nodes && shard in w.nodes[n].shards then Some(ContentsOf(w.nodes[n].shards[shard], w.now)) else None
  }

  /** What such a call can bring back in some state of the cluster is what a step of the
      cluster model lets the node receive. */
  lemma FetchIsStep(w: World, shardOf: ShardOf, n: Node, s: int, values: Contents)
    requires n in w.nodes && w.nodes[n].handler.Fetching? && s in w.nodes[n].handler.sources
    requires s !in w.nodes[n].handler.got
    requires var nodes := w.nodes[n].handler.sources[s];
             if exists x :: x in nodes && x != n && AskContents(w, s, x).Some?
             then exists x :: x in nodes && x != n && AskContents(w, s, x) == Some(values)
             else values == map[]
    ensures exists step :: && (step == FetchNothing(n, s) || (step.Fetch? && step.node == n && step.shard == s))
                           && Enabled(w, shardOf, step) && s in Next(w, shardOf, step).nodes[n].handler.got
                           && Next(w, shardOf, step).nodes[n].handler.got[s] == values
  {
    var nodes := w.nodes[n].handler.sources[s];
    if exists x :: x in nodes && x != n && AskContents(w, s, x).Some? {
      var x :| x in nodes && x != n && AskContents(w, s, x) == Some(values);
      var step := Fetch(n, s, x);
      assert Enabled(w, shardOf, step) && Next(w, shardOf, step).nodes[n].handler.got[s] == values;
    } else {
      forall x | x in nodes && x != n && x in w.nodes ensures s !in w.nodes[x].shards {
        assert AskContents(w, s, x) == None;
      }
      var step := FetchNothing(n, s);
      assert Enabled(w, shardOf, step) && Next(w, shardOf, step).nodes[n].handler.got[s] == values;
    }
  }

  /** Which shards are new and which are gone. */
  method Split(wanted: set<int>, hosted: set<int>) returns (added: set<int>, removed: set<int>)
    ensures added == wanted - hosted && removed == hosted - wanted
  {
    added, removed := {}, {};
    var left := wanted;
    while left != {}
      invariant left <= wanted && added == (wanted - left) - hosted
    {
      SomeShard(left);
      var s :| s in left;
      if s !in hosted {
        added := added + {s};
      }
      left := left - {s};
    }
    left := hosted;
    while left != {}
      invariant left <= hosted && removed == (hosted - left) - wanted
    {
      SomeShard(left);
      var s :| s in left;
      if s !in wanted {
        removed := removed + {s};
      }
      left := left - {s};
    }
  }
}
