/** No step of the cluster loses, changes or revives a key. */
module ClusterSafety {
  import opened Basics
  import opened Shard
  import opened ShardMap
  import opened Cluster

  /** Only node n's own state changed. */
  lemma NodeStepKeepsInv(w: World, shardOf: ShardOf, n: Node, st: NodeState)
    requires Inv(w, shardOf) && n in w.nodes
    requires NodeInStep(SetNode(w, n, st), n)
    requires forall s | s in st.shards :: StoreOk(SetNode(w, n, st), shardOf, n, s)
    requires ClientOk(SetNode(w, n, st), shardOf)
    ensures Inv(SetNode(w, n, st), shardOf)
  {
    var w' := SetNode(w, n, st);
    forall x | x in w'.nodes ensures NodeInStep(w', x) {
      if x != n {
        assert NodeInStep(w, x);
      }
    }
    forall x, s | x in w'.nodes && s in w'.nodes[x].shards ensures StoreOk(w', shardOf, x, s) {
      if x != n {
        assert StoreOk(w, shardOf, x, s);
      }
    }
  }

  // ----------------------------------------------------------- the updater

  lemma PublishKeepsInv(w: World, shardOf: ShardOf, next: Mapping)
    requires Inv(w, shardOf) && Enabled(w, shardOf, Publish(next))
    ensures Inv(Next(w, shardOf, Publish(next)), shardOf)
  {
    var w' := Next(w, shardOf, Publish(next));
    forall n | n in w'.nodes ensures NodeInStep(w', n) {
      assert NodeInStep(w, n);
    }
    forall n, s | n in w'.nodes && s in w'.nodes[n].shards ensures StoreOk(w', shardOf, n, s) {
      assert StoreOk(w, shardOf, n, s);
    }
    forall k | k in w'.facts ensures NodesForShard(next, shardOf(k)) != [] {
      assert GracefulFor(NodesForShard(w.mapping, shardOf(k)), NodesForShard(next, shardOf(k)));
    }
  }

  lemma NotifyKeepsInv(w: World, shardOf: ShardOf, n: Node)
    requires Inv(w, shardOf) && Enabled(w, shardOf, Notify(n))
    ensures Inv(Next(w, shardOf, Notify(n)), shardOf)
  {
    var w' := Next(w, shardOf, Notify(n));
    forall x | x in w'.nodes ensures NodeInStep(w', x) {
      assert NodeInStep(w, x);
    }
    forall x, s | x in w'.nodes && s in w'.nodes[x].shards ensures StoreOk(w', shardOf, x, s) {
      assert StoreOk(w, shardOf, x, s);
    }
  }

  lemma RoundEndKeepsInv(w: World, shardOf: ShardOf, step: Step)
    requires Inv(w, shardOf) && Enabled(w, shardOf, step) && (step.NotifyAgain? || step.UpdateReturns?)
    ensures Inv(Next(w, shardOf, step), shardOf)
  {
    var w' := Next(w, shardOf, step);
    forall x | x in w'.nodes ensures NodeInStep(w', x) {
      assert NodeInStep(w, x);
    }
    forall x, s | x in w'.nodes && s in w'.nodes[x].shards ensures StoreOk(w', shardOf, x, s) {
      assert StoreOk(w, shardOf, x, s);
    }
  }

  // ------------------------------------------------------------ the handler

  /** Handling a map the node already follows changes nothing. */
  lemma HandlingAgain(st: NodeState, m: Mapping, n: Node)
    requires Settled(st, m, n)
    ensures Handling(st, m, n) == NodeState(st.shards, Waiting)
  {
    assert Added(st.shards, m, n) == {};
    assert Rehosted(st.shards, m, n) == st.shards;
  }

  lemma HandlingInStep(w: World, shardOf: ShardOf, n: Node)
    requires Inv(w, shardOf) && Enabled(w, shardOf, BeginHandling(n))
    ensures NodeInStep(Next(w, shardOf, BeginHandling(n)), n)
  {
    var prior := w.nodes[n];
    var st := Handling(prior, w.mapping, n);
    assert NodeInStep(w, n);
    if Settled(prior, w.mapping, n) {
      HandlingAgain(prior, w.mapping, n);
    } else {
      assert st.shards.Keys == Hosts(w.mapping, n);
    }
  }

  /** Kept shards are untouched; new ones start out empty and marked as such. */
  lemma HandlingStores(w: World, shardOf: ShardOf, n: Node, s: int)
    requires Inv(w, shardOf) && Enabled(w, shardOf, BeginHandling(n)) && s in Hosts(w.mapping, n)
    ensures StoreOk(Next(w, shardOf, BeginHandling(n)), shardOf, n, s)
  {
    var prior := w.nodes[n];
    var st := Handling(prior, w.mapping, n);
    if s in prior.shards {
      assert StoreOk(w, shardOf, n, s);
      assert !BeingCopied(st, s) && st.shards[s] == prior.shards[s];
    } else {
      assert s in Added(prior.shards, w.mapping, n);
      assert BeingCopied(st, s);
    }
  }

  /** A node named for a shard that no map change concerns hosts it, complete, and
      no other node does. */
  lemma StableMeansHosted(w: World, shardOf: ShardOf, n: Node, s: int)
    requires Inv(w, shardOf) && n in w.nodes && Stable(w, s)
    ensures s in w.nodes[n].shards <==> n in NodesForShard(w.mapping, s)
    ensures !BeingCopied(w.nodes[n], s)
  {
    assert NodeInStep(w, n);
    assert s in Hosts(w.mapping, n) <==> n in NodesForShard(w.mapping, s);
    if w.updater.Updating? {
      assert s in Hosts(w.updater.before, n) <==> n in NodesForShard(w.updater.before, s);
    }
  }

  lemma HandlingClient(w: World, shardOf: ShardOf, n: Node)
    requires Inv(w, shardOf) && Enabled(w, shardOf, BeginHandling(n))
    ensures ClientOk(Next(w, shardOf, BeginHandling(n)), shardOf)
  {
    if !w.client.NoClient? {
      var s := shardOf(w.client.key);
      StableMeansHosted(w, shardOf, n, s);
      assert s in Hosts(w.mapping, n) <==> n in NodesForShard(w.mapping, s);
    }
  }

  lemma BeginHandlingKeepsInv(w: World, shardOf: ShardOf, n: Node)
    requires Inv(w, shardOf) && Enabled(w, shardOf, BeginHandling(n))
    ensures Inv(Next(w, shardOf, BeginHandling(n)), shardOf)
  {
    var st := Handling(w.nodes[n], w.mapping, n);
    HandlingInStep(w, shardOf, n);
    forall s | s in st.shards ensures StoreOk(SetNode(w, n, st), shardOf, n, s) {
      HandlingStores(w, shardOf, n, s);
    }
    HandlingClient(w, shardOf, n);
    NodeStepKeepsInv(w, shardOf, n, st);
  }

  /** A node asked for a shard by its one new replica has the shard complete. */
  lemma SourceIsComplete(w: World, shardOf: ShardOf, n: Node, s: int, source: Node)
    requires Inv(w, shardOf) && Enabled(w, shardOf, Fetch(n, s, source))
    ensures !BeingCopied(w.nodes[source], s)
  {
    assert NodeInStep(w, n) && NodeInStep(w, source);
    assert GracefulFor(NodesForShard(w.updater.before, s), NodesForShard(w.mapping, s));
  }

  /** What such a node sends has every promised key, with time enough left and not
      too much. */
  lemma ContentsKeep(data: Data, facts: map<Key, Fact>, client: Client, s: int, shardOf: ShardOf, now: int)
    requires Placed(data, s, shardOf, now) && Keeps(data, facts, s, shardOf, now) && Only(data, facts, client, now)
    requires client.NoClient? || shardOf(client.key) != s
    ensures ContentsOk(ContentsOf(data, now), now, facts, s, shardOf, now)
  {
    forall k | k in data
      ensures HasExpired(data[k], now) <==> Deadline(data[k]) <= now
      ensures Deadline(data[k]) <= now + RemainingOf(data[k], now).ttlMs * NS_PER_MS <= Deadline(data[k]) + NS_PER_MS - 1
    {
      ExpiredIffDeadline(data[k], now);
      CopyDrift(data[k], now, now);
    }
  }

  lemma FetchKeepsInv(w: World, shardOf: ShardOf, n: Node, s: int, source: Node)
    requires Inv(w, shardOf) && Enabled(w, shardOf, Fetch(n, s, source))
    ensures Inv(Next(w, shardOf, Fetch(n, s, source)), shardOf)
  {
    SourceIsComplete(w, shardOf, n, s, source);
    ClientElsewhere(w, shardOf, n, s);
    assert StoreOk(w, shardOf, source, s);
    ContentsKeep(w.nodes[source].shards[s], w.facts, w.client, s, shardOf, w.now);
    GotKeepsInv(w, shardOf, n, s, ContentsOf(w.nodes[source].shards[s], w.now));
  }

  /** The client is never at work on a shard that is being copied. */
  lemma ClientElsewhere(w: World, shardOf: ShardOf, n: Node, s: int)
    requires Inv(w, shardOf) && n in w.nodes && BeingCopied(w.nodes[n], s)
    ensures !Stable(w, s) && (w.client.NoClient? || shardOf(w.client.key) != s)
  {
    if Stable(w, s) {
      StableMeansHosted(w, shardOf, n, s);
    }
  }

  lemma HostedNowhere(w: World, shardOf: ShardOf, n: Node, s: int)
    requires Inv(w, shardOf) && Enabled(w, shardOf, FetchNothing(n, s))
    ensures w.updater.Updating? && NodesForShard(w.updater.before, s) == []
  {
    assert NodeInStep(w, n);
    var before, after := NodesForShard(w.updater.before, s), NodesForShard(w.mapping, s);
    assert GracefulFor(before, after);
    forall x | x in before && x in after ensures x in w.nodes && s in w.nodes[x].shards {
      assert NodeInStep(w, x) && s in Hosts(w.updater.before, x) && s in Hosts(w.mapping, x);
    }
    assert s !in Hosts(w.updater.before, n);
  }

  /** Nobody to ask means the shard was hosted nowhere, so nothing was promised. */
  lemma NothingPromised(w: World, shardOf: ShardOf, n: Node, s: int)
    requires Inv(w, shardOf) && Enabled(w, shardOf, FetchNothing(n, s))
    ensures ContentsOk(map[], w.now, w.facts, s, shardOf, w.now)
  {
    HostedNowhere(w, shardOf, n, s);
  }

  lemma GotStores(w: World, shardOf: ShardOf, n: Node, s: int, c: Contents, x: int)
    requires Inv(w, shardOf) && n in w.nodes && w.nodes[n].handler.Fetching? && x in w.nodes[n].shards
    requires ContentsOk(c, w.now, w.facts, s, shardOf, w.now)
    ensures StoreOk(SetNode(w, n, w.nodes[n].(handler := Received(w.nodes[n].handler, s, c, w.now))), shardOf, n, x)
  {
    assert StoreOk(w, shardOf, n, x);
  }

  lemma GotKeepsInv(w: World, shardOf: ShardOf, n: Node, s: int, c: Contents)
    requires Inv(w, shardOf) && n in w.nodes && w.nodes[n].handler.Fetching? && s in w.nodes[n].handler.sources
    requires ContentsOk(c, w.now, w.facts, s, shardOf, w.now)
    ensures var h := w.nodes[n].handler; Inv(SetNode(w, n, w.nodes[n].(handler := Received(h, s, c, w.now))), shardOf)
  {
    var st := w.nodes[n].(handler := Received(w.nodes[n].handler, s, c, w.now));
    assert NodeInStep(w, n);
    assert NodeInStep(SetNode(w, n, st), n);
    forall x | x in st.shards ensures StoreOk(SetNode(w, n, st), shardOf, n, x) {
      GotStores(w, shardOf, n, s, c, x);
    }
    NodeStepKeepsInv(w, shardOf, n, st);
  }

  /** A copy that arrives holds every promised key, and only those. */
  lemma ArrivalKeeps(c: Contents, sent: map<int, int>, facts: map<Key, Fact>, client: Client, s: int, shardOf: ShardOf, now: int)
    requires s in sent && ContentsOk(c, sent[s], facts, s, shardOf, now)
    ensures var data := ArrivedAll(c, now);
            var marked := MarkCopied(facts, sent, shardOf, now);
            Placed(data, s, shardOf, now) && Keeps(data, marked, s, shardOf, now) && Only(data, marked, client, now)
  {
  }

  /** Nothing but the latest time changes, and it only grows. */
  ghost predicate Prolonged(facts: map<Key, Fact>, marked: map<Key, Fact>) {
    && marked.Keys == facts.Keys
    && forall k | k in facts ::
         && marked[k].value == facts[k].value && marked[k].notBefore == facts[k].notBefore
         && marked[k].notAfter == facts[k].notAfter && marked[k].call == facts[k].call
         && facts[k].delay <= marked[k].delay && Latest(facts[k]) <= Latest(marked[k])
         && (marked[k].copies == 0 ==> marked[k] == facts[k])
  }

  /** Noting that a key was copied weakens what is promised about it. */
  lemma MarkingKeeps(data: Data, facts: map<Key, Fact>, marked: map<Key, Fact>, client: Client, s: int, shardOf: ShardOf, now: int)
    requires Keeps(data, facts, s, shardOf, now) && Only(data, facts, client, now) && Prolonged(facts, marked)
    ensures Keeps(data, marked, s, shardOf, now) && Only(data, marked, client, now)
  {
  }

  lemma SentInPast(w: World, shardOf: ShardOf, n: Node)
    requires Inv(w, shardOf) && n in w.nodes && w.nodes[n].handler.Fetching?
    ensures forall s | s in w.nodes[n].handler.sent :: w.nodes[n].handler.sent[s] <= w.now
  {
    assert NodeInStep(w, n);
    forall s | s in w.nodes[n].handler.sent ensures w.nodes[n].handler.sent[s] <= w.now {
      assert StoreOk(w, shardOf, n, s);
    }
  }

  lemma CopyingProlongs(facts: map<Key, Fact>, sent: map<int, int>, shardOf: ShardOf, now: int)
    requires forall s | s in sent :: sent[s] <= now
    ensures Prolonged(facts, MarkCopied(facts, sent, shardOf, now))
  {
    var marked := MarkCopied(facts, sent, shardOf, now);
    forall k | k in facts
      ensures facts[k].delay <= marked[k].delay && Latest(facts[k]) <= Latest(marked[k])
      ensures marked[k].copies == 0 ==> marked[k] == facts[k]
    {
      var s := shardOf(k);
      if s in sent {
        assert sent[s] <= now;
      }
    }
  }

  lemma MarkingProlongs(w: World, shardOf: ShardOf, n: Node)
    requires Inv(w, shardOf) && Enabled(w, shardOf, Install(n))
    ensures Prolonged(w.facts, Next(w, shardOf, Install(n)).facts)
  {
    SentInPast(w, shardOf, n);
    CopyingProlongs(w.facts, w.nodes[n].handler.sent, shardOf, w.now);
  }

  lemma InstalledAt(shards: map<int, Data>, got: map<int, Contents>, s: int, now: int)
    requires s in shards && s in got && shards[s] == map[]
    ensures Installed(shards, got, now)[s] == ArrivedAll(got[s], now)
  {
    assert map[] + ArrivedAll(got[s], now) == ArrivedAll(got[s], now);
  }

  lemma InstallHere(w: World, shardOf: ShardOf, n: Node, s: int)
    requires n in w.nodes && w.nodes[n].handler.Fetching? && s in w.nodes[n].handler.sent
    requires s in w.nodes[n].handler.sources && s in w.nodes[n].handler.got && s in w.nodes[n].shards
    requires StoreOk(w, shardOf, n, s) && Enabled(w, shardOf, Install(n))
    ensures StoreOk(Next(w, shardOf, Install(n)), shardOf, n, s)
  {
    var h := w.nodes[n].handler;
    ArrivalKeeps(h.got[s], h.sent, w.facts, w.client, s, shardOf, w.now);
    InstalledAt(w.nodes[n].shards, h.got, s, w.now);
  }

  lemma InstallElsewhere(w: World, shardOf: ShardOf, n: Node, x: Node, s: int)
    requires Inv(w, shardOf) && Enabled(w, shardOf, Install(n)) && x in w.nodes && s in w.nodes[x].shards
    requires x != n || s !in w.nodes[n].handler.got
    ensures StoreOk(Next(w, shardOf, Install(n)), shardOf, x, s)
  {
    var w' := Next(w, shardOf, Install(n));
    assert StoreOk(w, shardOf, x, s) && NodeInStep(w, n);
    assert w'.nodes[x].shards[s] == w.nodes[x].shards[s];
    MarkingProlongs(w, shardOf, n);
    if !BeingCopied(w.nodes[x], s) {
      MarkingKeeps(w.nodes[x].shards[s], w.facts, w'.facts, w.client, s, shardOf, w.now);
    }
  }

  lemma InstallClient(w: World, shardOf: ShardOf, n: Node)
    requires Inv(w, shardOf) && Enabled(w, shardOf, Install(n))
    ensures ClientOk(Next(w, shardOf, Install(n)), shardOf)
  {
    if !w.client.NoClient? {
      var s := shardOf(w.client.key);
      StableMeansHosted(w, shardOf, n, s);
      assert NodeInStep(w, n);
    }
  }

  lemma InstallFacts(w: World, shardOf: ShardOf, n: Node)
    requires Inv(w, shardOf) && Enabled(w, shardOf, Install(n))
    ensures FactsOk(Next(w, shardOf, Install(n)), shardOf)
  {
    MarkingProlongs(w, shardOf, n);
  }

  lemma InstallKeepsInv(w: World, shardOf: ShardOf, n: Node)
    requires Inv(w, shardOf) && Enabled(w, shardOf, Install(n))
    ensures Inv(Next(w, shardOf, Install(n)), shardOf)
  {
    var w' := Next(w, shardOf, Install(n));
    assert NodeInStep(w, n);
    assert w'.nodes[n].shards.Keys == w.nodes[n].shards.Keys;
    InstallFacts(w, shardOf, n);
    InstallClient(w, shardOf, n);
    forall x | x in w'.nodes ensures NodeInStep(w', x) {
      assert NodeInStep(w, x);
    }
    forall x, s | x in w'.nodes && s in w'.nodes[x].shards ensures StoreOk(w', shardOf, x, s) {
      InstallStores(w, shardOf, n, x, s);
    }
  }

  lemma InstallStores(w: World, shardOf: ShardOf, n: Node, x: Node, s: int)
    requires Inv(w, shardOf) && Enabled(w, shardOf, Install(n)) && x in w.nodes && s in w.nodes[x].shards
    ensures StoreOk(Next(w, shardOf, Install(n)), shardOf, x, s)
  {
    if x == n && s in w.nodes[n].handler.got {
      assert StoreOk(w, shardOf, n, s) && NodeInStep(w, n);
      InstallHere(w, shardOf, n, s);
    } else {
      InstallElsewhere(w, shardOf, n, x, s);
    }
  }

  /** Cleaning up removes nothing that is still promised. */
  lemma CleanupKeeps(data: Data, facts: map<Key, Fact>, client: Client, s: int, shardOf: ShardOf, now: int)
    requires Placed(data, s, shardOf, now) && Keeps(data, facts, s, shardOf, now) && Only(data, facts, client, now)
    ensures var clean := CleanupOn(data, now);
            && Placed(clean, s, shardOf, now) && Keeps(clean, facts, s, shardOf, now) && Only(clean, facts, client, now)
            && forall k | k in data :: k in clean || Deadline(data[k]) <= now
  {
    forall k | k in data ensures HasExpired(data[k], now) <==> Deadline(data[k]) <= now {
      ExpiredIffDeadline(data[k], now);
    }
  }

  lemma CleanUpKeepsInv(w: World, shardOf: ShardOf, n: Node, s: int)
    requires Inv(w, shardOf) && Enabled(w, shardOf, CleanUp(n, s))
    ensures Inv(Next(w, shardOf, CleanUp(n, s)), shardOf)
  {
    var data := w.nodes[n].shards[s];
    var st := SetData(w.nodes[n], s, CleanupOn(data, w.now));
    var w' := SetNode(w, n, st);
    assert StoreOk(w, shardOf, n, s) && NodeInStep(w, n);
    assert st.shards.Keys == w.nodes[n].shards.Keys;
    if !BeingCopied(w.nodes[n], s) {
      CleanupKeeps(data, w.facts, w.client, s, shardOf, w.now);
    }
    assert NodeInStep(w', n);
    forall x | x in st.shards ensures StoreOk(w', shardOf, n, x) {
      assert StoreOk(w, shardOf, n, x);
    }
    CleanUpClient(w, shardOf, n, s);
    NodeStepKeepsInv(w, shardOf, n, st);
  }

  lemma CleanUpClient(w: World, shardOf: ShardOf, n: Node, s: int)
    requires Inv(w, shardOf) && Enabled(w, shardOf, CleanUp(n, s))
    ensures ClientOk(Next(w, shardOf, CleanUp(n, s)), shardOf)
  {
    var data := w.nodes[n].shards[s];
    assert StoreOk(w, shardOf, n, s);
    assert NodeInStep(w, n);
    forall k | k in data && HasExpired(data[k], w.now) && Placed(data, s, shardOf, w.now)
      ensures Deadline(data[k]) <= w.now
    {
      ExpiredIffDeadline(data[k], w.now);
    }
  }

  // ------------------------------------------------------------- the client

  lemma BeginStores(w: World, shardOf: ShardOf, step: Step, x: Node, s: int)
    requires Inv(w, shardOf) && Enabled(w, shardOf, step) && (step.BeginSet? || step.BeginDelete?)
    requires x in w.nodes && s in w.nodes[x].shards
    ensures StoreOk(Next(w, shardOf, step), shardOf, x, s)
  {
    assert StoreOk(w, shardOf, x, s);
    StableMeansHosted(w, shardOf, x, shardOf(step.key));
    assert BeingCopied(w.nodes[x], s) ==> s != shardOf(step.key);
  }

  lemma BeginKeepsInv(w: World, shardOf: ShardOf, step: Step)
    requires Inv(w, shardOf) && Enabled(w, shardOf, step) && (step.BeginSet? || step.BeginDelete?)
    ensures Inv(Next(w, shardOf, step), shardOf)
  {
    var w' := Next(w, shardOf, step);
    forall x | x in w'.nodes ensures NodeInStep(w', x) {
      assert NodeInStep(w, x);
    }
    forall x, s | x in w'.nodes && s in w'.nodes[x].shards ensures StoreOk(w', shardOf, x, s) {
      BeginStores(w, shardOf, step, x, s);
    }
  }

  /** The client's own key may be written or dropped while it is at work. */
  lemma BusyDataKeeps(data: Data, data': Data, facts: map<Key, Fact>, client: Client, client': Client,
                      s: int, shardOf: ShardOf, now: int)
    requires Placed(data, s, shardOf, now) && Keeps(data, facts, s, shardOf, now) && Only(data, facts, client, now)
    requires !client.NoClient? && !client'.NoClient? && client'.key == client.key && client.key !in facts
    requires data' - {client.key} == data - {client.key} && Placed(data', s, shardOf, now)
    ensures Keeps(data', facts, s, shardOf, now) && Only(data', facts, client', now)
  {
    forall k | k != client.key ensures k in data <==> k in data' {
      assert k in data - {client.key} <==> k in data' - {client.key};
    }
    forall k | k != client.key && k in data ensures data'[k] == data[k] {
      assert data[k] == (data - {client.key})[k] == (data' - {client.key})[k] == data'[k];
    }
  }

  lemma NodeSetClient(w: World, shardOf: ShardOf, n: Node)
    requires Inv(w, shardOf) && Enabled(w, shardOf, NodeSet(n))
    ensures ClientOk(Next(w, shardOf, NodeSet(n)), shardOf)
  {
  }

  lemma NodeSetStores(w: World, shardOf: ShardOf, n: Node, x: Node, s: int)
    requires Inv(w, shardOf) && Enabled(w, shardOf, NodeSet(n)) && x in w.nodes && s in w.nodes[x].shards
    ensures StoreOk(Next(w, shardOf, NodeSet(n)), shardOf, x, s)
  {
    var w' := Next(w, shardOf, NodeSet(n));
    assert StoreOk(w, shardOf, x, s);
    StableMeansHosted(w, shardOf, x, shardOf(w.client.key));
    if x == n && s == shardOf(w.client.key) {
      BusyDataKeeps(w.nodes[n].shards[s], w'.nodes[n].shards[s], w.facts, w.client, w'.client, s, shardOf, w.now);
    }
  }

  lemma NodeSetKeepsInv(w: World, shardOf: ShardOf, n: Node)
    requires Inv(w, shardOf) && Enabled(w, shardOf, NodeSet(n))
    ensures Inv(Next(w, shardOf, NodeSet(n)), shardOf)
  {
    var w' := Next(w, shardOf, NodeSet(n));
    assert w'.nodes[n].shards.Keys == w.nodes[n].shards.Keys;
    forall x | x in w'.nodes ensures NodeInStep(w', x) {
      assert NodeInStep(w, x);
    }
    forall x, s | x in w'.nodes && s in w'.nodes[x].shards ensures StoreOk(w', shardOf, x, s) {
      NodeSetStores(w, shardOf, n, x, s);
    }
    NodeSetClient(w, shardOf, n);
  }

  lemma NodeDeleteClient(w: World, shardOf: ShardOf, n: Node)
    requires Inv(w, shardOf) && Enabled(w, shardOf, NodeDelete(n))
    ensures ClientOk(Next(w, shardOf, NodeDelete(n)), shardOf)
  {
  }

  lemma NodeDeleteStores(w: World, shardOf: ShardOf, n: Node, x: Node, s: int)
    requires Inv(w, shardOf) && Enabled(w, shardOf, NodeDelete(n)) && x in w.nodes && s in w.nodes[x].shards
    ensures StoreOk(Next(w, shardOf, NodeDelete(n)), shardOf, x, s)
  {
    var w' := Next(w, shardOf, NodeDelete(n));
    assert StoreOk(w, shardOf, x, s);
    StableMeansHosted(w, shardOf, x, shardOf(w.client.key));
    if x == n && s == shardOf(w.client.key) {
      BusyDataKeeps(w.nodes[n].shards[s], w'.nodes[n].shards[s], w.facts, w.client, w'.client, s, shardOf, w.now);
    }
  }

  lemma NodeDeleteKeepsInv(w: World, shardOf: ShardOf, n: Node)
    requires Inv(w, shardOf) && Enabled(w, shardOf, NodeDelete(n))
    ensures Inv(Next(w, shardOf, NodeDelete(n)), shardOf)
  {
    var w' := Next(w, shardOf, NodeDelete(n));
    assert w'.nodes[n].shards.Keys == w.nodes[n].shards.Keys;
    forall x | x in w'.nodes ensures NodeInStep(w', x) {
      assert NodeInStep(w, x);
    }
    forall x, s | x in w'.nodes && s in w'.nodes[x].shards ensures StoreOk(w', shardOf, x, s) {
      NodeDeleteStores(w, shardOf, n, x, s);
    }
    NodeDeleteClient(w, shardOf, n);
  }

  /** A finished Set is promised where it was written, and nothing else is. */
  lemma FinishedData(data: Data, facts: map<Key, Fact>, client: Client, fact: Fact, s: int, shardOf: ShardOf, now: int)
    requires client.Setting? && client.key !in facts
    requires fact == Fact(client.value, client.start + client.ttlMs * NS_PER_MS, now + client.ttlMs * NS_PER_MS, 0, 0, fact.call)
    requires Placed(data, s, shardOf, now) && Keeps(data, facts, s, shardOf, now) && Only(data, facts, client, now)
    requires s == shardOf(client.key) ==>
               if client.key in data
               then && data[client.key].value == client.value && data[client.key].ttlMs == client.ttlMs
                    && client.start <= data[client.key].storedTime
               else client.start + client.ttlMs * NS_PER_MS <= now
    ensures Keeps(data, facts[client.key := fact], s, shardOf, now) && Only(data, facts[client.key := fact], NoClient, now)
  {
  }

  lemma EndSetStores(w: World, shardOf: ShardOf, x: Node, s: int)
    requires Inv(w, shardOf) && Enabled(w, shardOf, EndSet) && x in w.nodes && s in w.nodes[x].shards
    ensures StoreOk(Next(w, shardOf, EndSet), shardOf, x, s)
  {
    assert StoreOk(w, shardOf, x, s);
    StableMeansHosted(w, shardOf, x, shardOf(w.client.key));
    if !BeingCopied(w.nodes[x], s) {
      var w' := Next(w, shardOf, EndSet);
      FinishedData(w.nodes[x].shards[s], w.facts, w.client, w'.facts[w.client.key], s, shardOf, w.now);
    }
  }

  lemma EndStores(w: World, shardOf: ShardOf, step: Step, x: Node, s: int)
    requires Inv(w, shardOf) && Enabled(w, shardOf, step) && (step.EndSet? || step.EndDelete?)
    requires x in w.nodes && s in w.nodes[x].shards
    ensures StoreOk(Next(w, shardOf, step), shardOf, x, s)
  {
    if step.EndSet? {
      EndSetStores(w, shardOf, x, s);
    } else {
      assert StoreOk(w, shardOf, x, s);
      StableMeansHosted(w, shardOf, x, shardOf(w.client.key));
    }
  }

  lemma EndKeepsInv(w: World, shardOf: ShardOf, step: Step)
    requires Inv(w, shardOf) && Enabled(w, shardOf, step) && (step.EndSet? || step.EndDelete?)
    ensures Inv(Next(w, shardOf, step), shardOf)
  {
    var w' := Next(w, shardOf, step);
    forall x | x in w'.nodes ensures NodeInStep(w', x) {
      assert NodeInStep(w, x);
    }
    forall x, s | x in w'.nodes && s in w'.nodes[x].shards ensures StoreOk(w', shardOf, x, s) {
      EndStores(w, shardOf, step, x, s);
    }
  }

  lemma TickKeepsInv(w: World, shardOf: ShardOf, ns: nat)
    requires Inv(w, shardOf)
    ensures Inv(Next(w, shardOf, Tick(ns)), shardOf)
  {
    var w' := Next(w, shardOf, Tick(ns));
    forall x | x in w'.nodes ensures NodeInStep(w', x) {
      assert NodeInStep(w, x);
    }
    forall x, s | x in w'.nodes && s in w'.nodes[x].shards ensures StoreOk(w', shardOf, x, s) {
      assert StoreOk(w, shardOf, x, s);
    }
  }

  lemma StepKeepsInv(w: World, shardOf: ShardOf, step: Step)
    requires Inv(w, shardOf) && Enabled(w, shardOf, step)
    ensures Inv(Next(w, shardOf, step), shardOf)
  {
    match step
    case Publish(next) => PublishKeepsInv(w, shardOf, next);
    case Notify(n) => NotifyKeepsInv(w, shardOf, n);
    case NotifyAgain => RoundEndKeepsInv(w, shardOf, step);
    case UpdateReturns => RoundEndKeepsInv(w, shardOf, step);
    case BeginHandling(n) => BeginHandlingKeepsInv(w, shardOf, n);
    case Fetch(n, s, source) => FetchKeepsInv(w, shardOf, n, s, source);
    case FetchNothing(n, s) =>
      NothingPromised(w, shardOf, n, s);
      GotKeepsInv(w, shardOf, n, s, map[]);
    case Install(n) => InstallKeepsInv(w, shardOf, n);
    case CleanUp(n, s) => CleanUpKeepsInv(w, shardOf, n, s);
    case BeginSet(_, _, _) => BeginKeepsInv(w, shardOf, step);
    case NodeSet(n) => NodeSetKeepsInv(w, shardOf, n);
    case EndSet => EndKeepsInv(w, shardOf, step);
    case BeginDelete(_) => BeginKeepsInv(w, shardOf, step);
    case NodeDelete(n) => NodeDeleteKeepsInv(w, shardOf, n);
    case EndDelete => EndKeepsInv(w, shardOf, step);
    case Tick(ns) => TickKeepsInv(w, shardOf, ns);
  }

  // ------------------------------------------------------------- whole runs

  ghost predicate ValidRun(w: World, shardOf: ShardOf, steps: seq<Step>)
    decreases |steps|
  {
    steps == [] || (Enabled(w, shardOf, steps[0]) && ValidRun(Next(w, shardOf, steps[0]), shardOf, steps[1..]))
  }

  ghost function After(w: World, shardOf: ShardOf, steps: seq<Step>): World
    requires ValidRun(w, shardOf, steps)
    decreases |steps|
  {
    if steps == [] then w else After(Next(w, shardOf, steps[0]), shardOf, steps[1..])
  }

  lemma {:induction false} RunKeepsInv(w: World, shardOf: ShardOf, steps: seq<Step>)
    requires Inv(w, shardOf) && ValidRun(w, shardOf, steps)
    ensures Inv(After(w, shardOf, steps), shardOf)
    decreases |steps|
  {
    if steps != [] {
      StepKeepsInv(w, shardOf, steps[0]);
      RunKeepsInv(Next(w, shardOf, steps[0]), shardOf, steps[1..]);
    }
  }

  /** The nodes of the cluster and its first shard map. */
  datatype Start = Start(nodes: set<Node>, mapping: Mapping)

  lemma InitInv(start: Start, shardOf: ShardOf)
    requires forall s, n | s in start.mapping && n in start.mapping[s] :: n in start.nodes
    ensures Inv(Init(start.nodes, start.mapping), shardOf)
  {
  }

  /** Reached by graceful map changes, client operations, background clean-up and
      the passing of time, in any interleaving. */
  ghost predicate Reachable(start: Start, shardOf: ShardOf, w: World) {
    && (forall s, n | s in start.mapping && n in start.mapping[s] :: n in start.nodes)
    && exists steps: seq<Step> ::
         && ValidRun(Init(start.nodes, start.mapping), shardOf, steps)
         && After(Init(start.nodes, start.mapping), shardOf, steps) == w
  }

  lemma ReachableInv(start: Start, shardOf: ShardOf, w: World)
    requires Reachable(start, shardOf, w)
    ensures Inv(w, shardOf)
  {
    var steps :| && ValidRun(Init(start.nodes, start.mapping), shardOf, steps)
                 && After(Init(start.nodes, start.mapping), shardOf, steps) == w;
    InitInv(start, shardOf);
    RunKeepsInv(Init(start.nodes, start.mapping), shardOf, steps);
  }

  lemma {:induction false} OneMore(w: World, shardOf: ShardOf, steps: seq<Step>, step: Step)
    requires ValidRun(w, shardOf, steps) && Enabled(After(w, shardOf, steps), shardOf, step)
    ensures ValidRun(w, shardOf, steps + [step])
    ensures After(w, shardOf, steps + [step]) == Next(After(w, shardOf, steps), shardOf, step)
    decreases |steps|
  {
    if steps == [] {
      assert [step][1..] == [];
    } else {
      OneMore(Next(w, shardOf, steps[0]), shardOf, steps[1..], step);
      assert (steps + [step])[1..] == steps[1..] + [step];
    }
  }

  lemma Reach(start: Start, shardOf: ShardOf, w: World, step: Step) returns (w': World)
    requires Reachable(start, shardOf, w) && Enabled(w, shardOf, step)
    ensures w' == Next(w, shardOf, step) && Reachable(start, shardOf, w')
  {
    var first := Init(start.nodes, start.mapping);
    var steps :| ValidRun(first, shardOf, steps) && After(first, shardOf, steps) == w;
    OneMore(first, shardOf, steps, step);
    w' := Next(w, shardOf, step);
  }

  // ---------------------------------------------------------------- reading

  datatype GetResult = NotHosted | EmptyKey | Answer(found: Option<Value>)

  /** A node's Get: is the shard hosted, is the key there at all, is it live. */
  function NodeGet(st: NodeState, shardOf: ShardOf, key: Key, now: int): GetResult {
    if shardOf(key) !in st.shards then NotHosted
    else if key == "" then EmptyKey
    else Answer(GetOn(st.shards[shardOf(key)], key, now))
  }

  /** A node refuses a key exactly if it does not host the key's shard; for a shard no
      map change concerns, exactly if the map does not name it. */
  lemma RefusedIffNotNamed(start: Start, shardOf: ShardOf, w: World, n: Node, key: Key)
    requires Reachable(start, shardOf, w) && n in w.nodes && Stable(w, shardOf(key))
    ensures NodeGet(w.nodes[n], shardOf, key, w.now).NotHosted? <==> n !in NodesForShard(w.mapping, shardOf(key))
  {
    ReachableInv(start, shardOf, w);
    StableMeansHosted(w, shardOf, n, shardOf(key));
  }

  /** A replica that is not being filled answers every promised key rightly: it
      finds the value until the promise runs out, finds nothing else, and finds
      nothing once the time is certainly up. */
  lemma ReplicaAnswers(w: World, shardOf: ShardOf, n: Node, key: Key)
    requires Inv(w, shardOf) && n in w.nodes && shardOf(key) in w.nodes[n].shards && key in w.facts
    requires !BeingCopied(w.nodes[n], shardOf(key))
    ensures var r := NodeGet(w.nodes[n], shardOf, key, w.now);
            && r.Answer?
            && (w.now < w.facts[key].notBefore ==> r.found == Some(w.facts[key].value))
            && (r.found.Some? ==> r.found.value == w.facts[key].value)
            && (Latest(w.facts[key]) <= w.now ==> r.found == None)
  {
    var data := w.nodes[n].shards[shardOf(key)];
    assert StoreOk(w, shardOf, n, shardOf(key));
    if key in data {
      ExpiredIffDeadline(data[key], w.now);
    }
  }

  /** Graceful moves lose nothing: after any number of them, every replica of a
      key's shard serves the key with the value last set until its time is up, and
      never anything else, whenever no map change under way concerns the shard. */
  lemma GracefulMovesLoseNothing(start: Start, shardOf: ShardOf, w: World, n: Node, key: Key)
    requires Reachable(start, shardOf, w) && Stable(w, shardOf(key)) && key in w.facts
    requires n in NodesForShard(w.mapping, shardOf(key))
    ensures n in w.nodes
    ensures var r := NodeGet(w.nodes[n], shardOf, key, w.now);
            && r.Answer?
            && (w.now < w.facts[key].notBefore ==> r.found == Some(w.facts[key].value))
            && (r.found.Some? ==> r.found.value == w.facts[key].value)
            && (Latest(w.facts[key]) <= w.now ==> r.found == None)
  {
    ReachableInv(start, shardOf, w);
    StableMeansHosted(w, shardOf, n, shardOf(key));
    ReplicaAnswers(w, shardOf, n, key);
  }

  /** Even in the middle of a map change, some replica serves every promised key. */
  lemma SomeReplicaAlwaysServes(start: Start, shardOf: ShardOf, w: World, key: Key) returns (n: Node)
    requires Reachable(start, shardOf, w) && key in w.facts && w.now < w.facts[key].notBefore
    ensures n in w.nodes && NodeGet(w.nodes[n], shardOf, key, w.now) == Answer(Some(w.facts[key].value))
    ensures n in NodesForShard(w.mapping, shardOf(key))
  {
    ReachableInv(start, shardOf, w);
    var s := shardOf(key);
    if w.updater.Quiet? {
      n := NodesForShard(w.mapping, s)[0];
    } else {
      assert GracefulFor(NodesForShard(w.updater.before, s), NodesForShard(w.mapping, s));
      n :| n in NodesForShard(w.updater.before, s) && n in NodesForShard(w.mapping, s);
      assert s in Hosts(w.updater.before, n);
    }
    assert s in Hosts(w.mapping, n);
    assert NodeInStep(w, n);
    ReplicaAnswers(w, shardOf, n, key);
  }

  lemma {:induction false} RunKeepsPromises(w: World, shardOf: ShardOf, steps: seq<Step>)
    requires PromisesOk(w) && ValidRun(w, shardOf, steps)
    ensures PromisesOk(After(w, shardOf, steps))
    decreases |steps|
  {
    if steps != [] {
      RunKeepsPromises(Next(w, shardOf, steps[0]), shardOf, steps[1..]);
    }
  }

  lemma ReachablePromises(start: Start, shardOf: ShardOf, w: World)
    requires Reachable(start, shardOf, w)
    ensures PromisesOk(w)
  {
    var first := Init(start.nodes, start.mapping);
    var steps :| ValidRun(first, shardOf, steps) && After(first, shardOf, steps) == w;
    RunKeepsPromises(first, shardOf, steps);
  }

  /** Read your writes: with the shard not copied since, a finished Set is served
      by every replica until start plus time to live, and by none from end plus
      time to live on, the time to live being cut to whole milliseconds. */
  lemma ReadYourWrites(start: Start, shardOf: ShardOf, w: World, n: Node, key: Key)
    requires Reachable(start, shardOf, w) && Stable(w, shardOf(key)) && key in w.facts && w.facts[key].copies == 0
    requires n in NodesForShard(w.mapping, shardOf(key))
    ensures n in w.nodes
    ensures var call, r := w.facts[key].call, NodeGet(w.nodes[n], shardOf, key, w.now);
            && (w.now < call.start + Whole(call.ttl) ==> r == Answer(Some(w.facts[key].value)))
            && (call.end + Whole(call.ttl) <= w.now ==> r == Answer(None))
  {
    ReachableInv(start, shardOf, w);
    ReachablePromises(start, shardOf, w);
    GracefulMovesLoseNothing(start, shardOf, w, n, key);
  }

  /** The cut loses less than a millisecond, and nothing exactly for a time to live of
      whole milliseconds; only then is a value served until start plus time to live. */
  lemma CutLoses(ttl: int)
    requires ttl >= 0
    ensures ttl - NS_PER_MS < Whole(ttl) <= ttl && (Whole(ttl) == ttl <==> ttl % NS_PER_MS == 0)
  {
    assert ttl == ttl / NS_PER_MS * NS_PER_MS + ttl % NS_PER_MS;
  }

  /** Migration drift in the cluster: whatever was copied how often, a live entry on
      any node expires no earlier than promised, and no later than the latest
      time of the Set plus the time its copies took plus less than a millisecond
      for each. */
  lemma ClusterDrift(start: Start, shardOf: ShardOf, w: World, n: Node, s: int, key: Key)
    requires Reachable(start, shardOf, w) && n in w.nodes && s in w.nodes[n].shards && key in w.nodes[n].shards[s]
    requires w.now < Deadline(w.nodes[n].shards[s][key]) && !BusyKey(w.client, key)
    ensures key in w.facts
    ensures var f, deadline := w.facts[key], Deadline(w.nodes[n].shards[s][key]);
            && deadline <= f.notAfter + f.delay + f.copies * (NS_PER_MS - 1)
            && (w.now < f.notBefore ==> f.notBefore <= deadline)
  {
    ReachableInv(start, shardOf, w);
    assert StoreOk(w, shardOf, n, s);
  }

  /** A key that was deleted, or never set, is found nowhere. */
  lemma DeletedStaysDeleted(start: Start, shardOf: ShardOf, w: World, n: Node, key: Key)
    requires Reachable(start, shardOf, w) && n in w.nodes && key !in w.facts && !BusyKey(w.client, key)
    ensures var r := NodeGet(w.nodes[n], shardOf, key, w.now); r.Answer? ==> r.found == None
  {
    ReachableInv(start, shardOf, w);
    var s := shardOf(key);
    if s in w.nodes[n].shards {
      assert StoreOk(w, shardOf, n, s);
      if key in w.nodes[n].shards[s] {
        ExpiredIffDeadline(w.nodes[n].shards[s][key], w.now);
      }
    }
  }

  /** The new replica is in service before its copy has arrived: a hosted node
      serves a promised key exactly when it is not still copying the shard. */
  lemma ServedIffNotBeingCopied(start: Start, shardOf: ShardOf, w: World, n: Node, key: Key)
    requires Reachable(start, shardOf, w) && n in w.nodes && shardOf(key) in w.nodes[n].shards
    requires key in w.facts && w.now < w.facts[key].notBefore
    ensures NodeGet(w.nodes[n], shardOf, key, w.now) == Answer(Some(w.facts[key].value))
        <==> !BeingCopied(w.nodes[n], shardOf(key))
  {
    ReachableInv(start, shardOf, w);
    assert StoreOk(w, shardOf, n, shardOf(key));
    if !BeingCopied(w.nodes[n], shardOf(key)) {
      ReplicaAnswers(w, shardOf, n, key);
    }
  }

  // -------------------------------------------------------------- placement

  /** UpdateShardMapping returns only when every node has finished handling the
      new map: the second notification finds each one waiting again. */
  lemma UpdateWaitsForEveryNode(start: Start, shardOf: ShardOf, w: World)
    requires Reachable(start, shardOf, w) && (w.updater.Quiet? || Enabled(w, shardOf, UpdateReturns))
    ensures forall n | n in w.nodes :: w.nodes[n].shards.Keys == Hosts(w.mapping, n) && !w.nodes[n].handler.Fetching?
  {
    ReachableInv(start, shardOf, w);
    forall n | n in w.nodes ensures Settled(w.nodes[n], w.mapping, n) {
      assert NodeInStep(w, n);
    }
  }

  /** Every key, stored or on its way, is under the shard it hashes to. */
  lemma KeysArePlaced(start: Start, shardOf: ShardOf, w: World, n: Node, s: int, key: Key)
    requires Reachable(start, shardOf, w) && n in w.nodes && s in w.nodes[n].shards
    ensures key in w.nodes[n].shards[s] ==> s == shardOf(key)
    ensures BeingCopied(w.nodes[n], s) && s in w.nodes[n].handler.got && key in w.nodes[n].handler.got[s] ==>
              s == shardOf(key)
  {
    ReachableInv(start, shardOf, w);
    assert StoreOk(w, shardOf, n, s) && NodeInStep(w, n);
  }

  /** The copy loop never touches a shard the node does not host, and stores every
      value under the shard it was fetched for. */
  lemma CopiesFitHosted(start: Start, shardOf: ShardOf, w: World, n: Node)
    requires Reachable(start, shardOf, w) && n in w.nodes && w.nodes[n].handler.Fetching?
    ensures forall s | s in w.nodes[n].handler.got :: s in w.nodes[n].shards
    ensures forall s, k | s in w.nodes[n].handler.got && k in w.nodes[n].handler.got[s] :: shardOf(k) == s
  {
    ReachableInv(start, shardOf, w);
    assert NodeInStep(w, n);
    forall s, k | s in w.nodes[n].handler.got && k in w.nodes[n].handler.got[s] ensures shardOf(k) == s {
      assert StoreOk(w, shardOf, n, s);
    }
  }

  /** The shard of a key with this hash. */
  function GetShardForKey(hash: nat, numShards: int): (s: int)
    requires numShards > 0
    ensures 1 <= s <= numShards
  {
    hash % numShards + 1
  }

  /** The first hashes go to the shards in order, and from there on the shards repeat. */
  lemma HashesGoAround(hash: nat, numShards: int)
    requires numShards > 0
    ensures hash < numShards ==> GetShardForKey(hash, numShards) == hash + 1
    ensures GetShardForKey(hash + numShards, numShards) == GetShardForKey(hash, numShards)
  {
    var q := hash / numShards;
    QuotientOf(hash + numShards, numShards, q + 1);
    if hash < numShards {
      QuotientOf(hash, numShards, 0);
    }
  }

  /** Handling a map keeps the data of kept shards and drops the rest. */
  lemma HandlingKeepsAndDrops(st: NodeState, m: Mapping, n: Node)
    ensures var st' := Handling(st, m, n);
            && st'.shards.Keys == Hosts(m, n)
            && (forall s | s in st'.shards :: st'.shards[s] == if s in st.shards then st.shards[s] else map[])
            && (st'.handler.Fetching? ==> st'.handler.sources.Keys == Hosts(m, n) - st.shards.Keys)
            && (st'.handler.Waiting? <==> Hosts(m, n) <= st.shards.Keys)
  {
    var added := Added(st.shards, m, n);
    assert added == {} <==> Hosts(m, n) <= st.shards.Keys by {
      assert forall s | s in Hosts(m, n) && s !in st.shards :: s in added;
    }
    assert (map s | s in added :: NodesForShard(m, s)).Keys == added;
  }

  /** A step that may change what node n stores of shard s without a map change. */
  predicate Writes(step: Step, n: Node, s: int) {
    step == NodeSet(n) || step == NodeDelete(n) || step == CleanUp(n, s)
  }

  /** Node n hosts the shard, complete and with this data, now and under the map. */
  ghost predicate Holding(w: World, n: Node, s: int, data: Data) {
    && n in w.nodes && s in w.nodes[n].shards && w.nodes[n].shards[s] == data
    && s in Hosts(w.mapping, n) && !BeingCopied(w.nodes[n], s)
  }

  lemma StepHolds(w: World, shardOf: ShardOf, step: Step, n: Node, s: int, data: Data)
    requires Enabled(w, shardOf, step) && Holding(w, n, s, data) && !step.Publish? && !Writes(step, n, s)
    ensures Holding(Next(w, shardOf, step), n, s, data)
  {
    match step
    case BeginHandling(x) => HandlingKeepsAndDrops(w.nodes[x], w.mapping, x);
    case Install(x) => InstallHolds(w, shardOf, x, n, s, data);
    case _ =>
  }

  lemma InstallHolds(w: World, shardOf: ShardOf, x: Node, n: Node, s: int, data: Data)
    requires Enabled(w, shardOf, Install(x)) && Holding(w, n, s, data)
    ensures Holding(Next(w, shardOf, Install(x)), n, s, data)
  {
    assert x == n ==> s !in w.nodes[n].handler.got;
  }

  lemma {:induction false} RunHolds(w: World, shardOf: ShardOf, steps: seq<Step>, n: Node, s: int, data: Data)
    requires ValidRun(w, shardOf, steps) && Holding(w, n, s, data)
    requires forall step | step in steps :: !step.Publish? && !Writes(step, n, s)
    ensures Holding(After(w, shardOf, steps), n, s, data)
    ensures After(w, shardOf, steps).mapping == w.mapping
    decreases |steps|
  {
    if steps != [] {
      StepHolds(w, shardOf, steps[0], n, s, data);
      RunHolds(Next(w, shardOf, steps[0]), shardOf, steps[1..], n, s, data);
    }
  }

  /** A whole update, from its publication on, in any interleaving: a shard the node
      keeps is served throughout with its data, changed only by clients and clean-up;
      once the update has returned, exactly the shards of the new map are hosted, so
      the others are gone with their data. */
  lemma UpdateKeepsAndDrops(start: Start, shardOf: ShardOf, w: World, next: Mapping, steps: seq<Step>, n: Node, s: int)
    requires Reachable(start, shardOf, w) && Enabled(w, shardOf, Publish(next)) && n in w.nodes
    requires ValidRun(Next(w, shardOf, Publish(next)), shardOf, steps)
    requires forall step | step in steps :: !step.Publish? && !Writes(step, n, s)
    ensures var w' := After(Next(w, shardOf, Publish(next)), shardOf, steps);
            && w'.nodes.Keys == w.nodes.Keys && w'.mapping == next
            && (s in Hosts(w.mapping, n) && s in Hosts(next, n) ==>
                  && s in w.nodes[n].shards && s in w'.nodes[n].shards
                  && w'.nodes[n].shards[s] == w.nodes[n].shards[s])
            && (w'.updater.Quiet? ==> w'.nodes[n].shards.Keys == Hosts(next, n))
  {
    var published := Reach(start, shardOf, w, Publish(next));
    RunKeepsMap(published, shardOf, steps);
    ReachableInv(start, shardOf, w);
    assert NodeInStep(w, n);
    if s in Hosts(w.mapping, n) && s in Hosts(next, n) {
      RunHolds(published, shardOf, steps, n, s, w.nodes[n].shards[s]);
    }
    ReachableInv(start, shardOf, published);
    RunKeepsInv(published, shardOf, steps);
    assert NodeInStep(After(published, shardOf, steps), n);
  }

  lemma {:induction false} RunKeepsMap(w: World, shardOf: ShardOf, steps: seq<Step>)
    requires ValidRun(w, shardOf, steps) && forall step | step in steps :: !step.Publish?
    ensures After(w, shardOf, steps).mapping == w.mapping && After(w, shardOf, steps).nodes.Keys == w.nodes.Keys
    decreases |steps|
  {
    if steps != [] {
      RunKeepsMap(Next(w, shardOf, steps[0]), shardOf, steps[1..]);
    }
  }
}
