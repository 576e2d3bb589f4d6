/** Sets and deletes from beginning to end, in terms of the calls alone: what every
    replica answers afterwards, through any interleaving of map changes, copies,
    clean-up and calls for other keys. */
module ClusterClients {
  import opened Basics
  import opened Shard
  import opened ShardMap
  import opened Cluster
  import opened ClusterSafety

  /** A call that begins to change the key. */
  predicate Touches(step: Step, key: Key) {
    (step.BeginSet? || step.BeginDelete?) && step.key == key
  }

  /** A Set under way, as it was called. */
  ghost predicate UnderWay(w: World, key: Key, value: Value, ttl: int, start: int) {
    && w.client.Setting? && w.client.key == key && w.client.value == value
    && w.client.ttl == ttl && w.client.ttlMs == Milliseconds(ttl) && w.client.start == start
  }

  lemma {:induction false} StaysUnderWay(w: World, shardOf: ShardOf, steps: seq<Step>, key: Key, value: Value, ttl: int, start: int)
    requires ValidRun(w, shardOf, steps) && UnderWay(w, key, value, ttl, start) && EndSet !in steps
    ensures UnderWay(After(w, shardOf, steps), key, value, ttl, start)
    decreases |steps|
  {
    if steps != [] {
      assert steps[0] in steps;
      StaysUnderWay(Next(w, shardOf, steps[0]), shardOf, steps[1..], key, value, ttl, start);
    }
  }

  ghost predicate Stands(w: World, key: Key, value: Value, call: SetCall) {
    key in w.facts && w.facts[key].value == value && w.facts[key].call == call && !BusyKey(w.client, key)
  }

  lemma StepStands(w: World, shardOf: ShardOf, step: Step, key: Key, value: Value, call: SetCall)
    requires Enabled(w, shardOf, step) && Stands(w, key, value, call) && !Touches(step, key)
    ensures Stands(Next(w, shardOf, step), key, value, call)
  {
  }

  lemma {:induction false} PromiseStands(w: World, shardOf: ShardOf, steps: seq<Step>, key: Key, value: Value, call: SetCall)
    requires ValidRun(w, shardOf, steps) && Stands(w, key, value, call)
    requires forall step | step in steps :: !Touches(step, key)
    ensures Stands(After(w, shardOf, steps), key, value, call)
    decreases |steps|
  {
    if steps != [] {
      StepStands(w, shardOf, steps[0], key, value, call);
      PromiseStands(Next(w, shardOf, steps[0]), shardOf, steps[1..], key, value, call);
    }
  }

  lemma {:induction false} RunsReach(start: Start, shardOf: ShardOf, w: World, steps: seq<Step>)
    requires Reachable(start, shardOf, w) && ValidRun(w, shardOf, steps)
    ensures Reachable(start, shardOf, After(w, shardOf, steps))
    decreases |steps|
  {
    if steps != [] {
      var next := Reach(start, shardOf, w, steps[0]);
      RunsReach(start, shardOf, next, steps[1..]);
    }
  }

  /** A whole Set: called in `w`, finished after `during`. */
  ghost predicate SetDone(w: World, shardOf: ShardOf, key: Key, value: Value, ttl: int, during: seq<Step>, w': World) {
    && Enabled(w, shardOf, BeginSet(key, value, ttl))
    && var begun := Next(w, shardOf, BeginSet(key, value, ttl));
       && ValidRun(begun, shardOf, during) && EndSet !in during
       && Enabled(After(begun, shardOf, during), shardOf, EndSet)
       && w' == Next(After(begun, shardOf, during), shardOf, EndSet)
  }

  lemma SetPromises(start: Start, shardOf: ShardOf, w: World, key: Key, value: Value, ttl: int, during: seq<Step>, w': World)
    requires Reachable(start, shardOf, w) && SetDone(w, shardOf, key, value, ttl, during, w')
    ensures Reachable(start, shardOf, w') && Stands(w', key, value, SetCall(w.now, w'.now, ttl))
  {
    var begun := Reach(start, shardOf, w, BeginSet(key, value, ttl));
    RunsReach(start, shardOf, begun, during);
    StaysUnderWay(begun, shardOf, during, key, value, ttl, w.now);
    var done := Reach(start, shardOf, After(begun, shardOf, during), EndSet);
  }

  /** After a Set has returned, and as long as nobody begins to set or delete the key,
      every replica answers with its value until the whole milliseconds of its time to
      live have passed since it was called, and with no other value ever. */
  lemma SetIsServed(start: Start, shardOf: ShardOf, w: World, key: Key, value: Value, ttl: int, during: seq<Step>,
                    done: World, later: seq<Step>, n: Node)
    requires Reachable(start, shardOf, w) && SetDone(w, shardOf, key, value, ttl, during, done)
    requires ValidRun(done, shardOf, later) && forall step | step in later :: !Touches(step, key)
    requires var end := After(done, shardOf, later);
             Stable(end, shardOf(key)) && n in NodesForShard(end.mapping, shardOf(key))
    ensures var end := After(done, shardOf, later);
            && n in end.nodes
            && var r := NodeGet(end.nodes[n], shardOf, key, end.now);
               && (end.now < w.now + Whole(ttl) ==> r == Answer(Some(value)))
               && (r == Answer(Some(value)) || r == Answer(None))
  {
    var end := After(done, shardOf, later);
    SetPromises(start, shardOf, w, key, value, ttl, during, done);
    PromiseStands(done, shardOf, later, key, value, SetCall(w.now, done.now, ttl));
    RunsReach(start, shardOf, done, later);
    ReachablePromises(start, shardOf, end);
    GracefulMovesLoseNothing(start, shardOf, end, n, key);
  }

  ghost predicate Absent(w: World, key: Key) {
    key !in w.facts && !(w.client.Setting? && w.client.key == key)
  }

  lemma {:induction false} StaysAbsent(w: World, shardOf: ShardOf, steps: seq<Step>, key: Key)
    requires ValidRun(w, shardOf, steps) && Absent(w, key)
    requires forall step | step in steps :: !(step.BeginSet? && step.key == key)
    ensures Absent(After(w, shardOf, steps), key)
    decreases |steps|
  {
    if steps != [] {
      assert steps[0] in steps;
      StaysAbsent(Next(w, shardOf, steps[0]), shardOf, steps[1..], key);
    }
  }

  /** After a Delete has returned, and as long as nobody begins to set the key, no node
      finds it while no delete of it is under way. */
  lemma DeleteIsFinal(start: Start, shardOf: ShardOf, w: World, key: Key, during: seq<Step>, later: seq<Step>, n: Node)
    requires Reachable(start, shardOf, w) && Enabled(w, shardOf, BeginDelete(key))
    requires var begun := Next(w, shardOf, BeginDelete(key));
             && ValidRun(begun, shardOf, during + [EndDelete] + later)
             && forall step | step in during + later :: !(step.BeginSet? && step.key == key)
    requires var end := After(Next(w, shardOf, BeginDelete(key)), shardOf, during + [EndDelete] + later);
             n in end.nodes && !BusyKey(end.client, key)
    ensures var end := After(Next(w, shardOf, BeginDelete(key)), shardOf, during + [EndDelete] + later);
            var r := NodeGet(end.nodes[n], shardOf, key, end.now); r.NotHosted? || r == Answer(None)
  {
    var begun := Reach(start, shardOf, w, BeginDelete(key));
    var steps := during + [EndDelete] + later;
    RunsReach(start, shardOf, begun, steps);
    StaysAbsent(begun, shardOf, steps, key);
    DeletedStaysDeleted(start, shardOf, After(begun, shardOf, steps), n, key);
  }

  /** Clean-up leaves a node with exactly the keys of the shard that are still live. */
  lemma CleanUpLeavesLive(start: Start, shardOf: ShardOf, w: World, n: Node, s: int, key: Key)
    requires Reachable(start, shardOf, w) && Enabled(w, shardOf, CleanUp(n, s))
    ensures var before, after := w.nodes[n].shards[s], Next(w, shardOf, CleanUp(n, s)).nodes[n].shards[s];
            key in after <==> key in before && w.now < Deadline(before[key])
  {
    ReachableInv(start, shardOf, w);
    assert StoreOk(w, shardOf, n, s);
    var before := w.nodes[n].shards[s];
    if key in before {
      ExpiredIffDeadline(before[key], w.now);
    }
  }
}
