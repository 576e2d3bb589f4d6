/** The workflows that adjust replicas: add some, drop some, move a shard, drain
    a node. Where nodes are picked at random, any choice may be taken. */
module Replicas {
  import opened Basics
  import opened ShardMap

  lemma DistinctAppend(nodes: seq<Node>, n: Node)
    requires Distinct(nodes)
    ensures Distinct(nodes + [n]) <==> n !in nodes
    ensures Elements(nodes + [n]) == Elements(nodes) + {n}
  {
    if n in nodes {
      var i :| 0 <= i < |nodes| && nodes[i] == n;
      assert (nodes + [n])[i] == (nodes + [n])[|nodes|];
    }
  }

  /** A private copy of the shard map state, edited in place. */
  class Editor {
    const nodes: set<Node>
    const numShards: int
    var shardsToNodes: Mapping

    constructor (known: set<Node>, m: Mapping, n: int)
      ensures nodes == known && shardsToNodes == m && numShards == n
    {
      nodes, shardsToNodes, numShards := known, m, n;
    }

    ghost predicate Valid()
      reads this
    {
      WellPlaced(ShardMapState(nodes, shardsToNodes, numShards))
    }

    /** Adds `num` replicas, those in `dst` first. Fails, changing nothing, when
        there are too few nodes or `dst` repeats a node or names a present one. */
    method AddReplicas(shard: int, num: nat, dst: seq<Node>) returns (ok: bool)
      requires Valid() && 1 <= shard <= numShards
      requires |dst| <= num && forall n | n in dst :: n in nodes
      modifies this
      ensures Valid()
      ensures ok <==> |NodesForShard(old(shardsToNodes), shard)| + num <= |nodes|
                      && Distinct(NodesForShard(old(shardsToNodes), shard) + dst)
      ensures !ok ==> shardsToNodes == old(shardsToNodes)
      ensures ok ==>
                && shardsToNodes == old(shardsToNodes)[shard := NodesForShard(shardsToNodes, shard)]
                && NodesForShard(old(shardsToNodes), shard) + dst <= NodesForShard(shardsToNodes, shard)
                && |NodesForShard(shardsToNodes, shard)| == |NodesForShard(old(shardsToNodes), shard)| + num
    {
      var list := NodesForShard(shardsToNodes, shard);
      if |list| + num > |nodes| {
        return false;
      }
      ghost var was := list;
      for i := 0 to |dst|
        invariant list == was + dst[..i] && ListOk(list, nodes) && shardsToNodes == old(shardsToNodes)
      {
        assert was + dst[..i + 1] == list + [dst[i]];
        DistinctAppend(list, dst[i]);
        if dst[i] in list {
          NotDistinctLonger(list + [dst[i]], was + dst);
          return false;
        }
        list := list + [dst[i]];
      }
      assert dst[..|dst|] == dst;
      list := Fill(list, num - |dst|);
      shardsToNodes := shardsToNodes[shard := list];
      ok := true;
    }

    /** Appends `count` nodes the list does not have yet. */
    method Fill(start: seq<Node>, count: nat) returns (list: seq<Node>)
      requires ListOk(start, nodes) && |start| + count <= |nodes|
      ensures ListOk(list, nodes) && start <= list && |list| == |start| + count
    {
      list := start;
      var options := nodes - Elements(start);
      for i := 0 to count
        invariant ListOk(list, nodes) && start <= list && |list| == |start| + i
        invariant options == nodes - Elements(list)
      {
        DistinctCount(list);
        assert Elements(list) <= nodes;
        assert |options| == |nodes| - |Elements(list)|;
        assert options != {};
        var n :| n in options;
        DistinctAppend(list, n);
        list := list + [n];
        options := options - {n};
      }
    }

    /** Drops `num` replicas, those in `src` first. Fails, changing nothing, when
        there are too few replicas or `src` is too long or names another node. */
    method DropReplicas(shard: int, num: int, src: seq<Node>) returns (ok: bool)
      requires Valid() && 1 <= shard <= numShards
      modifies this
      ensures Valid()
      ensures ok <==> |src| <= num <= |NodesForShard(old(shardsToNodes), shard)|
                      && forall n | n in src :: n in NodesForShard(old(shardsToNodes), shard)
      ensures !ok ==> shardsToNodes == old(shardsToNodes)
      ensures ok ==>
                && shardsToNodes == old(shardsToNodes)[shard := NodesForShard(shardsToNodes, shard)]
                && |NodesForShard(shardsToNodes, shard)| == |NodesForShard(old(shardsToNodes), shard)| - num
                && forall n | n in NodesForShard(shardsToNodes, shard) ::
                     n in NodesForShard(old(shardsToNodes), shard) && n !in src
    {
      var list := NodesForShard(shardsToNodes, shard);
      if |list| < num || |src| > num {
        return false;
      }
      var candidates, missing := Partition(list, src);
      assert forall n | n in src && n !in list :: n in missing;
      if missing != {} {
        var n :| n in missing;
        return false;
      }
      var pool := candidates[..|list| - |src|];
      var kept := Pick(pool, |list| - num);
      shardsToNodes := shardsToNodes[shard := kept];
      ok := true;
    }
  }

  lemma NotDistinctLonger(a: seq<Node>, b: seq<Node>)
    requires a <= b && !Distinct(a)
    ensures !Distinct(b)
  {
    var i, j :| 0 <= i < j < |a| && a[i] == a[j];
    assert b[i] == b[j];
  }

  /** The nodes of a list that are not to go, and those to go that it lacks. */
  method Partition(list: seq<Node>, src: seq<Node>) returns (candidates: seq<Node>, missing: set<Node>)
    requires Distinct(list)
    ensures Distinct(candidates) && forall n :: n in candidates <==> n in list && n !in src
    ensures missing == Elements(src) - Elements(list)
    ensures |list| - |src| <= |candidates|
  {
    candidates, missing := [], Elements(src);
    for i := 0 to |list|
      invariant Distinct(candidates) && forall n :: n in candidates <==> n in list[..i] && n !in src
      invariant missing == Elements(src) - Elements(list[..i])
    {
      assert list[..i + 1] == list[..i] + [list[i]] && list[i] !in list[..i];
      if list[i] in missing {
        missing := missing - {list[i]};
      } else {
        DistinctAppend(candidates, list[i]);
        candidates := candidates + [list[i]];
      }
    }
    assert list[..|list|] == list;
    DistinctCount(list);
    DistinctCount(candidates);
    ElementsCount(src);
    assert Elements(list) <= Elements(candidates) + Elements(src);
    CardSubset(Elements(list), Elements(candidates) + Elements(src));
  }

  lemma {:induction false} ElementsCount(nodes: seq<Node>)
    ensures |Elements(nodes)| <= |nodes|
  {
    if nodes != [] {
      var last := |nodes| - 1;
      ElementsCount(nodes[..last]);
      assert nodes == nodes[..last] + [nodes[last]];
      assert Elements(nodes) == Elements(nodes[..last]) + {nodes[last]};
    }
  }

  lemma CardSubset(a: set<Node>, b: set<Node>)
    requires a <= b
    ensures |a| <= |b|
  {
    assert b == a + (b - a);
  }

  /** Any `count` different nodes of the pool, in any order. */
  method Pick(pool: seq<Node>, count: nat) returns (list: seq<Node>)
    requires Distinct(pool) && count <= |pool|
    ensures Distinct(list) && |list| == count && forall n | n in list :: n in pool
  {
    list := [];
    var options := Elements(pool);
    for i := 0 to count
      invariant Distinct(list) && |list| == i && forall n | n in list :: n in pool
      invariant options == Elements(pool) - Elements(list)
    {
      DistinctCount(list);
      DistinctCount(pool);
      assert Elements(list) <= Elements(pool);
      assert |options| == |pool| - i;
      assert options != {};
      var n :| n in options;
      DistinctAppend(list, n);
      list := list + [n];
      options := options - {n};
    }
  }

  // --------------------------------------------------------- the workflows

  /** Each published map is a graceful change of the one before it. */
  ghost predicate GracefulChain(first: Mapping, published: seq<Mapping>)
    decreases |published|
  {
    published == [] || (Graceful(first, published[0]) && GracefulChain(published[0], published[1..]))
  }

  /** One list changed: grown by at most one node, or shrunk but not emptied. */
  lemma OneListGraceful(m: Mapping, m': Mapping, shard: int)
    requires m' == m[shard := NodesForShard(m', shard)]
    requires GracefulFor(NodesForShard(m, shard), NodesForShard(m', shard))
    ensures Graceful(m, m')
  {
    forall s ensures GracefulFor(NodesForShard(m, s), NodesForShard(m', s)) {
      if s != shard {
        SameListGraceful(NodesForShard(m, s));
      }
    }
  }

  lemma SameListGraceful(list: seq<Node>)
    ensures GracefulFor(list, list)
  {
    if list != [] {
      assert list[0] in list;
    }
  }

  lemma GrownGraceful(list: seq<Node>, list': seq<Node>)
    requires list <= list' && |list'| <= |list| + 1
    ensures GracefulFor(list, list')
  {
    if list != [] {
      assert list[0] in list && list'[0] == list[0];
    }
    assert list' == list + list'[|list|..];
  }

  lemma ShrunkGraceful(list: seq<Node>, list': seq<Node>)
    requires list' != [] && forall n | n in list' :: n in list
    ensures GracefulFor(list, list')
  {
    assert list'[0] in list && list'[0] in list';
  }

  /** Dropping one named node from a list leaves exactly the others. */
  lemma OneDropped(list: seq<Node>, list': seq<Node>, node: Node)
    requires Distinct(list) && Distinct(list') && node in list && |list'| == |list| - 1
    requires forall n | n in list' :: n in list && n != node
    ensures Elements(list') == Elements(list) - {node}
  {
    DistinctCount(list);
    DistinctCount(list');
    SubsetSameSize(Elements(list'), Elements(list) - {node});
  }

  lemma SubsetSameSize(a: set<Node>, b: set<Node>)
    requires a <= b && |a| == |b|
    ensures a == b
  {
    assert b == a + (b - a);
    assert |b - a| == 0;
  }

  method CopyTo(known: set<Node>, m: Mapping, numShards: int, shard: int, dst: Node) returns (ok: bool, mid: Mapping)
    requires WellPlaced(ShardMapState(known, m, numShards)) && 1 <= shard <= numShards && dst in known
    ensures ok <==> |NodesForShard(m, shard)| < |known| && dst !in NodesForShard(m, shard)
    ensures ok ==> WellPlaced(ShardMapState(known, mid, numShards)) && Graceful(m, mid)
    ensures ok ==> mid == m[shard := NodesForShard(m, shard) + [dst]]
  {
    var list := NodesForShard(m, shard);
    DistinctAppend(list, dst);
    var edit := new Editor(known, m, numShards);
    ok := edit.AddReplicas(shard, 1, [dst]);
    mid := edit.shardsToNodes;
    if ok {
      assert NodesForShard(mid, shard) == list + [dst];
      GrownGraceful(list, list + [dst]);
      OneListGraceful(m, mid, shard);
    }
  }

  method DropFrom(known: set<Node>, m: Mapping, numShards: int, shard: int, src: Node) returns (ok: bool, fin: Mapping)
    requires WellPlaced(ShardMapState(known, m, numShards)) && 1 <= shard <= numShards
    ensures ok <==> src in NodesForShard(m, shard)
    ensures ok ==> WellPlaced(ShardMapState(known, fin, numShards)) && fin == m[shard := NodesForShard(fin, shard)]
    ensures ok ==> Elements(NodesForShard(fin, shard)) == Elements(NodesForShard(m, shard)) - {src}
    ensures ok ==> |NodesForShard(fin, shard)| == |NodesForShard(m, shard)| - 1
    ensures ok && |NodesForShard(m, shard)| >= 2 ==> Graceful(m, fin)
  {
    var edit := new Editor(known, m, numShards);
    assert src in [src];
    ok := edit.DropReplicas(shard, 1, [src]);
    fin := edit.shardsToNodes;
    if ok {
      OneDropped(NodesForShard(m, shard), NodesForShard(fin, shard), src);
      if |NodesForShard(m, shard)| >= 2 {
        ShrunkGraceful(NodesForShard(m, shard), NodesForShard(fin, shard));
        OneListGraceful(m, fin, shard);
      }
    }
  }

  /** Move a shard: replicate to `dst`, publish, drop from `src`, publish. Whatever
      fails on the way, no published map loses data; and when nothing fails,
      `dst` has taken the place of `src`. */
  method MoveShard(known: set<Node>, m: Mapping, numShards: int, shard: int, src: Node, dst: Node)
      returns (ok: bool, published: seq<Mapping>)
    requires WellPlaced(ShardMapState(known, m, numShards)) && 1 <= shard <= numShards && dst in known
    ensures GracefulChain(m, published) && forall p | p in published :: WellPlaced(ShardMapState(known, p, numShards))
    ensures src == dst ==> ok && published == []
    ensures src != dst ==> (ok <==> |NodesForShard(m, shard)| < |known|
                                    && src in NodesForShard(m, shard) && dst !in NodesForShard(m, shard))
    ensures src != dst && |NodesForShard(m, shard)| < |known| && dst !in NodesForShard(m, shard) ==>
              published != [] && published[0] == m[shard := NodesForShard(m, shard) + [dst]]
    ensures !ok ==> |published| == if |NodesForShard(m, shard)| < |known| && dst !in NodesForShard(m, shard) then 1 else 0
    ensures ok && src != dst ==>
              && |published| == 2 && published[1] == m[shard := NodesForShard(published[1], shard)]
              && Elements(NodesForShard(published[1], shard)) == Elements(NodesForShard(m, shard)) - {src} + {dst}
              && |NodesForShard(published[1], shard)| == |NodesForShard(m, shard)|
  {
    published := [];
    if src == dst {
      return true, published;
    }
    var mid, fin;
    ok, mid := CopyTo(known, m, numShards, shard, dst);
    if !ok {
      return;
    }
    published := [mid];
    assert GracefulChain(mid, []);
    ok, fin := DropFrom(known, mid, numShards, shard, src);
    if !ok {
      return;
    }
    published := [mid, fin];
    assert published[1..] == [fin] && [fin][1..] == [];
    assert GracefulChain(fin, []) && GracefulChain(mid, [fin]);
  }

  /** One replica more, if there is a node to put it on. */
  ghost predicate Reinforced(list: seq<Node>, list': seq<Node>, nodes: int) {
    list <= list' && |list'| == if |list| < nodes then |list| + 1 else |list|
  }

  ghost predicate Relieved(list: seq<Node>, list': seq<Node>, node: Node) {
    && |list'| == |list| - 1 && (forall n | n in list' :: n in list && n != node)
  }

  /** First give every shard of the node one more replica where possible. */
  method Reinforce(edit: Editor, shards: seq<int>)
    requires edit.Valid() && forall i, j | 0 <= i < j < |shards| :: shards[i] != shards[j]
    requires forall s | s in shards :: s in edit.shardsToNodes
    modifies edit
    ensures edit.Valid() && edit.shardsToNodes.Keys == old(edit.shardsToNodes).Keys
    ensures forall s | s in shards ::
              Reinforced(NodesForShard(old(edit.shardsToNodes), s), NodesForShard(edit.shardsToNodes, s), |edit.nodes|)
    ensures forall s | s !in shards :: NodesForShard(edit.shardsToNodes, s) == NodesForShard(old(edit.shardsToNodes), s)
  {
    for i := 0 to |shards|
      invariant edit.Valid() && edit.shardsToNodes.Keys == old(edit.shardsToNodes).Keys
      invariant forall j | 0 <= j < i ::
          Reinforced(NodesForShard(old(edit.shardsToNodes), shards[j]), NodesForShard(edit.shardsToNodes, shards[j]), |edit.nodes|)
      invariant forall s | s !in shards[..i] :: NodesForShard(edit.shardsToNodes, s) == NodesForShard(old(edit.shardsToNodes), s)
    {
      var s := shards[i];
      assert s in shards;
      var list := NodesForShard(edit.shardsToNodes, s);
      if |list| < |edit.nodes| {
        assert list + [] == list;
        var ok := edit.AddReplicas(s, 1, []);
        assert ok;
      }
    }
  }

  /** Then drop the node itself from every one of them. */
  method Relieve(edit: Editor, shards: seq<int>, node: Node)
    requires edit.Valid() && forall i, j | 0 <= i < j < |shards| :: shards[i] != shards[j]
    requires forall s | s in shards :: s in edit.shardsToNodes && node in edit.shardsToNodes[s]
    modifies edit
    ensures edit.Valid() && edit.shardsToNodes.Keys == old(edit.shardsToNodes).Keys
    ensures forall s | s in shards ::
              Relieved(NodesForShard(old(edit.shardsToNodes), s), NodesForShard(edit.shardsToNodes, s), node)
    ensures forall s | s !in shards :: NodesForShard(edit.shardsToNodes, s) == NodesForShard(old(edit.shardsToNodes), s)
  {
    for i := 0 to |shards|
      invariant edit.Valid() && edit.shardsToNodes.Keys == old(edit.shardsToNodes).Keys
      invariant forall j | 0 <= j < i ::
          Relieved(NodesForShard(old(edit.shardsToNodes), shards[j]), NodesForShard(edit.shardsToNodes, shards[j]), node)
      invariant forall s | s !in shards[..i] :: NodesForShard(edit.shardsToNodes, s) == NodesForShard(old(edit.shardsToNodes), s)
    {
      assert shards[i] in shards;
      assert NodesForShard(edit.shardsToNodes, shards[i]) == NodesForShard(old(edit.shardsToNodes), shards[i]);
      RelieveOne(edit, shards[i], node);
    }
  }

  method RelieveOne(edit: Editor, s: int, node: Node)
    requires edit.Valid() && s in edit.shardsToNodes && node in edit.shardsToNodes[s]
    modifies edit
    ensures edit.Valid() && edit.shardsToNodes.Keys == old(edit.shardsToNodes).Keys
    ensures Relieved(NodesForShard(old(edit.shardsToNodes), s), NodesForShard(edit.shardsToNodes, s), node)
    ensures forall t | t != s :: NodesForShard(edit.shardsToNodes, t) == NodesForShard(old(edit.shardsToNodes), t)
  {
    assert node in [node] && |edit.shardsToNodes[s]| >= 1;
    var ok := edit.DropReplicas(s, 1, [node]);
    assert ok;
  }

  /** Drain a node: it ends up with no shard. Every shard it had keeps its number
      of replicas, or loses one if it already was on every node; so data is lost
      exactly when the node had shards and is the only one. */
  method DrainNode(known: set<Node>, m: Mapping, numShards: int, node: Node) returns (mid: Mapping, fin: Mapping)
    requires WellPlaced(ShardMapState(known, m, numShards))
    ensures WellPlaced(ShardMapState(known, mid, numShards)) && WellPlaced(ShardMapState(known, fin, numShards))
    ensures Hosts(fin, node) == {}
    ensures forall s | s in Hosts(m, node) ::
              |NodesForShard(fin, s)| == if |m[s]| < |known| then |m[s]| else |known| - 1
    ensures forall s | s !in Hosts(m, node) :: NodesForShard(fin, s) == NodesForShard(mid, s) == NodesForShard(m, s)
    ensures Graceful(m, mid) && Graceful(mid, fin) <==> |known| >= 2 || Hosts(m, node) == {}
  {
    var shards := ShardsForNode(m, node);
    var edit := new Editor(known, m, numShards);
    Reinforce(edit, shards);
    mid := edit.shardsToNodes;
    assert forall s | s in shards :: m[s] <= mid[s];
    edit := new Editor(known, mid, numShards);
    Relieve(edit, shards, node);
    fin := edit.shardsToNodes;
    forall s | s in fin ensures node !in fin[s] {
      assert s !in shards ==> fin[s] == NodesForShard(m, s);
    }
    assert Hosts(fin, node) == {};
    forall s | s in Hosts(m, node) ensures |m[s]| <= |known| && |m[s]| >= 1 {
      DistinctCount(m[s]);
      CardSubset(Elements(m[s]), known);
    }
    DrainLosesIff(known, m, mid, fin, node);
  }

  /** Each hosted shard got one node more if there was one, and then lost `node`;
      the other shards were left alone. */
  ghost predicate Drained(known: set<Node>, m: Mapping, mid: Mapping, fin: Mapping, node: Node) {
    && (forall s | s in Hosts(m, node) ::
          && 1 <= |NodesForShard(m, s)| <= |known|
          && Reinforced(NodesForShard(m, s), NodesForShard(mid, s), |known|)
          && Relieved(NodesForShard(mid, s), NodesForShard(fin, s), node))
    && (forall s | s !in Hosts(m, node) :: NodesForShard(fin, s) == NodesForShard(mid, s) == NodesForShard(m, s))
  }

  lemma DrainLosesIff(known: set<Node>, m: Mapping, mid: Mapping, fin: Mapping, node: Node)
    requires Drained(known, m, mid, fin, node)
    ensures Graceful(m, mid) && Graceful(mid, fin) <==> |known| >= 2 || Hosts(m, node) == {}
  {
    if |known| >= 2 || Hosts(m, node) == {} {
      DrainGraceful(known, m, mid, fin, node);
    } else {
      SomeShard(Hosts(m, node));
      var s :| s in Hosts(m, node);
      assert !GracefulFor(NodesForShard(mid, s), NodesForShard(fin, s));
    }
  }

  lemma DrainGraceful(known: set<Node>, m: Mapping, mid: Mapping, fin: Mapping, node: Node)
    requires |known| >= 2 || Hosts(m, node) == {}
    requires Drained(known, m, mid, fin, node)
    ensures Graceful(m, mid) && Graceful(mid, fin)
  {
    forall s
      ensures GracefulFor(NodesForShard(m, s), NodesForShard(mid, s))
      ensures GracefulFor(NodesForShard(mid, s), NodesForShard(fin, s))
    {
      if s in Hosts(m, node) {
        GrownGraceful(NodesForShard(m, s), NodesForShard(mid, s));
        ShrunkGraceful(NodesForShard(mid, s), NodesForShard(fin, s));
      } else {
        SameListGraceful(NodesForShard(m, s));
      }
    }
  }
}
