/** The cluster while its shard map changes: one updater that publishes a new
    map and notifies every node twice over unbuffered channels, nodes that drop
    and copy shards when notified, and one client at a time.

    Every remote call to a node that hosts the shard succeeds. */
module Cluster {
  import opened Basics
  import opened Shard
  import opened ShardMap

  /** Where a node's listening goroutine is. `Fetching` remembers, for every
      added shard, the nodes to ask, what has come back so far, and, as history,
      when it was sent. */
  datatype Handler =
    | Waiting
    | Notified
    | Fetching(sources: map<int, seq<Node>>, got: map<int, Contents>, sent: map<int, int>)

  datatype NodeState = NodeState(shards: map<int, Data>, handler: Handler)

  /** UpdateShardMapping publishes the map, tells every node, and does so again. */
  datatype Updater = Quiet | Updating(before: Mapping, second: bool, left: set<Node>)

  datatype Client =
    | NoClient
    | Setting(key: Key, value: Value, ttl: int, ttlMs: int, start: int, left: set<Node>)
    | Deleting(key: Key, left: set<Node>)

  /** When a Set was called and when it returned, and the time to live it asked for. */
  datatype SetCall = SetCall(start: int, end: int, ttl: int)

  /** The client cuts a time to live to whole milliseconds before sending it. */
  function Whole(ttl: int): int {
    Milliseconds(ttl) * NS_PER_MS
  }

  /** What the last finished Set of a key promises: the value, and the times before
      which no replica it wrote may and after which each must have expired. Since
      then the key's shard was copied `copies` times, which took `delay` in all. */
  datatype Fact = Fact(value: Value, notBefore: int, notAfter: int, copies: nat, delay: int, call: SetCall)

  /** No replica may keep the key longer: every copy adds the time it took and less
      than a millisecond. */
  function Latest(f: Fact): int {
    f.notAfter + f.delay + f.copies * (NS_PER_MS - 1)
  }

  datatype World = World(
    nodes: map<Node, NodeState>,
    mapping: Mapping,
    updater: Updater,
    client: Client,
    facts: map<Key, Fact>,
    now: int)

  type ShardOf = Key -> int

  datatype Step =
    | Publish(next: Mapping)
    | Notify(node: Node)
    | NotifyAgain
    | UpdateReturns
    | BeginHandling(node: Node)
    | Fetch(node: Node, shard: int, source: Node)
    | FetchNothing(node: Node, shard: int)
    | Install(node: Node)
    | CleanUp(node: Node, shard: int)
    | BeginSet(key: Key, value: Value, ttl: int)
    | NodeSet(node: Node)
    | EndSet
    | BeginDelete(key: Key)
    | NodeDelete(node: Node)
    | EndDelete
    | Tick(ns: nat)

  // --------------------------------------------- what a node does with a map

  function Added(shards: map<int, Data>, m: Mapping, node: Node): set<int> {
    Hosts(m, node) - shards.Keys
  }

  /** Shards no longer assigned are dropped with their data, shards still
      assigned are left alone, new ones start empty: before any copy arrives. */
  function Rehosted(shards: map<int, Data>, m: Mapping, node: Node): map<int, Data> {
    map s | s in Hosts(m, node) :: if s in shards then shards[s] else map[]
  }

  function Handling(st: NodeState, m: Mapping, node: Node): NodeState {
    var added := Added(st.shards, m, node);
    NodeState(Rehosted(st.shards, m, node),
              if added == {} then Waiting else Fetching(map s | s in added :: NodesForShard(m, s), map[], map[]))
  }

  function ArrivedAll(c: Contents, now: int): Data {
    map k | k in c :: Arrived(c[k], now)
  }

  function Installed(shards: map<int, Data>, got: map<int, Contents>, now: int): map<int, Data> {
    map s | s in shards :: if s in got then shards[s] + ArrivedAll(got[s], now) else shards[s]
  }

  // ---------------------------------------------------------------- steps

  function Replicas(w: World, shard: int): set<Node> {
    set n | n in NodesForShard(w.mapping, shard)
  }

  /** No map change under way concerns the shard. */
  predicate Stable(w: World, shard: int) {
    w.updater.Quiet? || NodesForShard(w.updater.before, shard) == NodesForShard(w.mapping, shard)
  }

  ghost predicate Enabled(w: World, shardOf: ShardOf, step: Step) {
    match step
    case Publish(next) =>
      && w.updater.Quiet? && Graceful(w.mapping, next)
      && (!w.client.NoClient? ==>
            NodesForShard(w.mapping, shardOf(w.client.key)) == NodesForShard(next, shardOf(w.client.key)))
      && forall s, n | s in next && n in next[s] :: n in w.nodes
    case Notify(n) =>
      n in w.nodes && w.updater.Updating? && n in w.updater.left && w.nodes[n].handler.Waiting?
    case NotifyAgain => w.updater.Updating? && !w.updater.second && w.updater.left == {}
    case UpdateReturns => w.updater.Updating? && w.updater.second && w.updater.left == {}
    case BeginHandling(n) => n in w.nodes && w.nodes[n].handler.Notified?
    case Fetch(n, s, source) =>
      && n in w.nodes && w.nodes[n].handler.Fetching? && s in w.nodes[n].handler.sources
      && s !in w.nodes[n].handler.got && source in w.nodes[n].handler.sources[s] && source != n
      && source in w.nodes && s in w.nodes[source].shards
    case FetchNothing(n, s) =>
      && n in w.nodes && w.nodes[n].handler.Fetching? && s in w.nodes[n].handler.sources
      && s !in w.nodes[n].handler.got
      && forall source | source in w.nodes[n].handler.sources[s] && source != n ::
           source in w.nodes ==> s !in w.nodes[source].shards
    case Install(n) =>
      n in w.nodes && w.nodes[n].handler.Fetching? && w.nodes[n].handler.got.Keys == w.nodes[n].handler.sources.Keys
    case CleanUp(n, s) => n in w.nodes && s in w.nodes[n].shards
    case BeginSet(key, _, _) =>
      Stable(w, shardOf(key)) && w.client.NoClient? && key != "" && Replicas(w, shardOf(key)) != {}
    case NodeSet(n) =>
      w.client.Setting? && n in w.client.left && n in w.nodes && shardOf(w.client.key) in w.nodes[n].shards
    case EndSet => w.client.Setting? && w.client.left == {}
    case BeginDelete(key) =>
      Stable(w, shardOf(key)) && w.client.NoClient? && key != "" && Replicas(w, shardOf(key)) != {}
    case NodeDelete(n) =>
      w.client.Deleting? && n in w.client.left && n in w.nodes && shardOf(w.client.key) in w.nodes[n].shards
    case EndDelete => w.client.Deleting? && w.client.left == {}
    case Tick(_) => true
  }

  function SetNode(w: World, n: Node, st: NodeState): World {
    w.(nodes := w.nodes[n := st])
  }

  function SetData(st: NodeState, shard: int, data: Data): NodeState {
    st.(shards := st.shards[shard := data])
  }

  function MarkCopied(facts: map<Key, Fact>, sent: map<int, int>, shardOf: ShardOf, now: int): map<Key, Fact> {
    map k | k in facts ::
      if shardOf(k) in sent
      then facts[k].(copies := facts[k].copies + 1, delay := facts[k].delay + now - sent[shardOf(k)])
      else facts[k]
  }

  function Received(h: Handler, shard: int, values: Contents, now: int): Handler
    requires h.Fetching?
  {
    h.(got := h.got[shard := values], sent := h.sent[shard := now])
  }

  function Next(w: World, shardOf: ShardOf, step: Step): World
    requires Enabled(w, shardOf, step)
  {
    match step
    case Publish(next) => w.(mapping := next, updater := Updating(w.mapping, false, w.nodes.Keys))
    case Notify(n) =>
      SetNode(w, n, w.nodes[n].(handler := Notified)).(updater := w.updater.(left := w.updater.left - {n}))
    case NotifyAgain => w.(updater := w.updater.(second := true, left := w.nodes.Keys))
    case UpdateReturns => w.(updater := Quiet)
    case BeginHandling(n) => SetNode(w, n, Handling(w.nodes[n], w.mapping, n))
    case Fetch(n, s, source) =>
      var h := w.nodes[n].handler;
      SetNode(w, n, w.nodes[n].(handler := Received(h, s, ContentsOf(w.nodes[source].shards[s], w.now), w.now)))
    case FetchNothing(n, s) =>
      var h := w.nodes[n].handler;
      SetNode(w, n, w.nodes[n].(handler := Received(h, s, map[], w.now)))
    case Install(n) =>
      var st := w.nodes[n];
      SetNode(w, n, NodeState(Installed(st.shards, st.handler.got, w.now), Waiting))
      .(facts := MarkCopied(w.facts, st.handler.sent, shardOf, w.now))
    case CleanUp(n, s) => SetNode(w, n, SetData(w.nodes[n], s, CleanupOn(w.nodes[n].shards[s], w.now)))
    case BeginSet(key, value, ttl) =>
      w.(client := Setting(key, value, ttl, Milliseconds(ttl), w.now, Replicas(w, shardOf(key))), facts := w.facts - {key})
    case NodeSet(n) =>
      var c := w.client;
      var s := shardOf(c.key);
      SetNode(w, n, SetData(w.nodes[n], s, w.nodes[n].shards[s][c.key := KvObject(c.value, w.now, c.ttlMs)]))
      .(client := Setting(c.key, c.value, c.ttl, c.ttlMs, c.start, c.left - {n}))
    case EndSet =>
      var c := w.client;
      var ttl := c.ttlMs * NS_PER_MS;
      w.(client := NoClient,
         facts := w.facts[c.key := Fact(c.value, c.start + ttl, w.now + ttl, 0, 0, SetCall(c.start, w.now, c.ttl))])
    case BeginDelete(key) =>
      w.(client := Deleting(key, Replicas(w, shardOf(key))), facts := w.facts - {key})
    case NodeDelete(n) =>
      var c := w.client;
      var s := shardOf(c.key);
      SetNode(w, n, SetData(w.nodes[n], s, w.nodes[n].shards[s] - {c.key}))
      .(client := Deleting(c.key, c.left - {n}))
    case EndDelete => w.(client := NoClient)
    case Tick(ns) => w.(now := w.now + ns)
  }

  /** All nodes know the map and host what it says, with nothing stored yet. */
  function Init(nodes: set<Node>, m: Mapping): World {
    World(map n | n in nodes :: NodeState(map s | s in Hosts(m, n) :: map[], Waiting), m, Quiet, NoClient, map[], 0)
  }

  // ---------------------------------------------------- what a Set asked for

  /** A promise in terms of the call that made it. */
  predicate Promised(f: Fact) {
    f.notBefore == f.call.start + Whole(f.call.ttl) && f.notAfter == f.call.end + Whole(f.call.ttl)
  }

  ghost predicate PromisesOk(w: World) {
    && (forall k | k in w.facts :: Promised(w.facts[k]))
    && (w.client.Setting? ==> w.client.ttlMs == Milliseconds(w.client.ttl))
  }

  // ----------------------------------------------- who has handled which map

  ghost predicate Settled(st: NodeState, m: Mapping, n: Node) {
    !st.handler.Fetching? && st.shards.Keys == Hosts(m, n)
  }

  ghost predicate Copying(st: NodeState, before: Mapping, m: Mapping, n: Node) {
    && st.handler.Fetching? && st.shards.Keys == Hosts(m, n)
    && st.handler.sent.Keys == st.handler.got.Keys <= st.handler.sources.Keys
    && forall s | s in st.handler.sources ::
         s in Hosts(m, n) && s !in Hosts(before, n) && st.handler.sources[s] == NodesForShard(m, s)
  }

  /** The rendezvous: a node whose notification of this round has been delivered
      is handling the new map or has handled it; the second round finds it
      waiting, so it has. */
  ghost predicate NodeInStep(w: World, n: Node)
    requires n in w.nodes
  {
    var st := w.nodes[n];
    match w.updater
    case Quiet => Settled(st, w.mapping, n)
    case Updating(before, second, left) =>
      if second && n !in left then Settled(st, w.mapping, n)
      else
        || Settled(st, w.mapping, n)
        || Copying(st, before, w.mapping, n)
        || (Settled(st, before, n) && ((!second && n in left) || st.handler.Notified?))
  }

  ghost predicate MapOk(w: World) {
    && (forall s, n | s in w.mapping && n in w.mapping[s] :: n in w.nodes)
    && (w.updater.Updating? ==>
          && Graceful(w.updater.before, w.mapping)
          && forall s, n | s in w.updater.before && n in w.updater.before[s] :: n in w.nodes)
  }

  // ------------------------------------------------------- what is stored

  predicate BusyKey(c: Client, k: Key) {
    !c.NoClient? && c.key == k
  }

  ghost predicate Placed(data: Data, s: int, shardOf: ShardOf, now: int) {
    forall k | k in data :: shardOf(k) == s && data[k].storedTime <= now && k != ""
  }

  /** Every promised key is there, with its value, until its time is up. */
  ghost predicate Keeps(data: Data, facts: map<Key, Fact>, s: int, shardOf: ShardOf, now: int) {
    forall k | k in facts && shardOf(k) == s && now < facts[k].notBefore ::
      k in data && data[k].value == facts[k].value && facts[k].notBefore <= Deadline(data[k])
  }

  /** Nothing else can be read: no deleted and no overwritten value comes back. */
  ghost predicate Only(data: Data, facts: map<Key, Fact>, client: Client, now: int) {
    forall k | k in data && now < Deadline(data[k]) && !BusyKey(client, k) ::
      && k in facts && data[k].value == facts[k].value
      && Deadline(data[k]) <= Latest(facts[k])
  }

  ghost predicate ContentsOk(c: Contents, sent: int, facts: map<Key, Fact>, s: int, shardOf: ShardOf, now: int) {
    && sent <= now
    && (forall k | k in c ::
          && shardOf(k) == s && k != "" && k in facts && c[k].value == facts[k].value
          && sent + c[k].ttlMs * NS_PER_MS <= Latest(facts[k]) + NS_PER_MS - 1)
    && (forall k | k in facts && shardOf(k) == s && now < facts[k].notBefore ::
          k in c && facts[k].notBefore <= now + c[k].ttlMs * NS_PER_MS)
  }

  predicate BeingCopied(st: NodeState, s: int) {
    st.handler.Fetching? && s in st.handler.sources
  }

  ghost predicate StoreOk(w: World, shardOf: ShardOf, n: Node, s: int)
    requires n in w.nodes && s in w.nodes[n].shards
  {
    var st := w.nodes[n];
    var data := st.shards[s];
    if BeingCopied(st, s) then
      && data == map[]
      && (s in st.handler.got && s in st.handler.sent ==>
            ContentsOk(st.handler.got[s], st.handler.sent[s], w.facts, s, shardOf, w.now))
    else
      && Placed(data, s, shardOf, w.now) && Keeps(data, w.facts, s, shardOf, w.now)
      && Only(data, w.facts, w.client, w.now)
  }

  ghost predicate FactsOk(w: World, shardOf: ShardOf) {
    && (forall k | k in w.facts :: k != "" && !BusyKey(w.client, k) && w.facts[k].delay >= 0)
    && (forall k | k in w.facts && w.facts[k].copies == 0 :: w.facts[k].delay == 0)
    && (forall k | k in w.facts :: NodesForShard(w.mapping, shardOf(k)) != [])
    && (w.updater.Updating? ==> forall k | k in w.facts :: NodesForShard(w.updater.before, shardOf(k)) != [])
  }

  ghost predicate ClientOk(w: World, shardOf: ShardOf) {
    match w.client
    case NoClient => true
    case Setting(key, value, _, ttlMs, start, left) =>
      && Stable(w, shardOf(key)) && key != "" && start <= w.now && NodesForShard(w.mapping, shardOf(key)) != []
      && forall n | n in NodesForShard(w.mapping, shardOf(key)) && n !in left && n in w.nodes ::
           WroteKey(w.nodes[n], shardOf(key), key, value, ttlMs, start, w.now)
    case Deleting(key, left) =>
      && Stable(w, shardOf(key)) && key != ""
      && forall n | n in NodesForShard(w.mapping, shardOf(key)) && n !in left && n in w.nodes ::
           DroppedKey(w.nodes[n], shardOf(key), key, w.now)
  }

  ghost predicate WroteKey(st: NodeState, s: int, key: Key, value: Value, ttlMs: int, start: int, now: int) {
    s in st.shards ==>
      if key in st.shards[s] then
        && st.shards[s][key].value == value && st.shards[s][key].ttlMs == ttlMs
        && start <= st.shards[s][key].storedTime <= now
      else start + ttlMs * NS_PER_MS <= now
  }

  ghost predicate DroppedKey(st: NodeState, s: int, key: Key, now: int) {
    s in st.shards ==> key !in st.shards[s]
  }

  ghost predicate Inv(w: World, shardOf: ShardOf) {
    && MapOk(w)
    && (forall n | n in w.nodes :: NodeInStep(w, n))
    && (forall n, s | n in w.nodes && s in w.nodes[n].shards :: StoreOk(w, shardOf, n, s))
    && FactsOk(w, shardOf) && ClientOk(w, shardOf)
  }
}
