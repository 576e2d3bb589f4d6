/** When a call is answered: exactly when its end is on and the instance it was sent to
    was never taken off the network; and that calls and restarts can be carried
    through from every reachable state. */
module CrashCalls {
  import opened CrashRestart

  /** The call was sent over `end` to instance `inst` of `node`. */
  ghost predicate SentTo(w: World, call: nat, end: nat, node: nat, inst: nat) {
    call in w.calls && w.calls[call].end == end && w.calls[call].node == node && w.calls[call].inst == inst
  }

  ghost predicate Registered(w: World, node: nat, inst: nat) {
    node < |w.nodes| && w.nodes[node].server == Some(inst)
  }

  /** The instance was taken off and can never be registered again. */
  ghost predicate Gone(w: World, node: nat, inst: nat) {
    && node < |w.nodes|
    && var nd := w.nodes[node];
       || (nd.server.None? && !nd.phase.Made?)
       || (nd.latest.Some? && nd.latest.value > inst && (nd.server.Some? ==> nd.server == nd.latest))
  }

  lemma StepKeepsCall(w: World, step: Step, call: nat, end: nat, node: nat, inst: nat)
    requires Enabled(w, step) && SentTo(w, call, end, node, inst)
    ensures SentTo(Next(w, step), call, end, node, inst)
  {
  }

  lemma StepKeepsRegistered(w: World, step: Step, node: nat, inst: nat)
    requires Enabled(w, step) && Registered(w, node, inst) && NodeOk(w, node)
    ensures if step == DeleteServer(node) then Gone(Next(w, step), node, inst) else Registered(Next(w, step), node, inst)
  {
  }

  lemma StepKeepsGone(w: World, step: Step, node: nat, inst: nat)
    requires Enabled(w, step) && Gone(w, node, inst) && inst < |w.instances| && NodeOk(w, node)
    ensures Gone(Next(w, step), node, inst) && inst < |Next(w, step).instances|
  {
  }

  lemma {:induction false} RunKeepsGone(w: World, steps: seq<Step>, node: nat, inst: nat)
    requires Inv(w) && ValidRun(w, steps) && Gone(w, node, inst) && inst < |w.instances|
    ensures Gone(After(w, steps), node, inst)
    decreases |steps|
  {
    if steps != [] {
      StepKeepsInv(w, steps[0]);
      StepKeepsGone(w, steps[0], node, inst);
      RunKeepsGone(Next(w, steps[0]), steps[1..], node, inst);
    }
  }

  lemma {:induction false} RunKeepsCall(w: World, steps: seq<Step>, call: nat, end: nat, node: nat, inst: nat)
    requires ValidRun(w, steps) && SentTo(w, call, end, node, inst)
    ensures SentTo(After(w, steps), call, end, node, inst)
    decreases |steps|
  {
    if steps != [] {
      StepKeepsCall(w, steps[0], call, end, node, inst);
      RunKeepsCall(Next(w, steps[0]), steps[1..], call, end, node, inst);
    }
  }

  /** Over any run an instance stays registered until its server is deleted, and is
      never registered again after that. */
  lemma {:induction false} RegisteredUntilDeleted(w: World, steps: seq<Step>, node: nat, inst: nat)
    requires Inv(w) && ValidRun(w, steps) && Registered(w, node, inst)
    ensures if DeleteServer(node) in steps then Gone(After(w, steps), node, inst)
            else Registered(After(w, steps), node, inst)
    decreases |steps|
  {
    if steps != [] {
      assert NodeOk(w, node);
      StepKeepsInv(w, steps[0]);
      StepKeepsRegistered(w, steps[0], node, inst);
      if steps[0] == DeleteServer(node) {
        RunKeepsGone(Next(w, steps[0]), steps[1..], node, inst);
      } else {
        RegisteredUntilDeleted(Next(w, steps[0]), steps[1..], node, inst);
      }
    }
  }

  /** Whether an end is on after these steps. */
  function IsOn(end: nat, on: bool, steps: seq<Step>): bool {
    if steps == [] then on
    else
      var before := IsOn(end, on, steps[..|steps| - 1]);
      var last := steps[|steps| - 1];
      if last.Enable? && last.end == end then last.on
      else if last.Disconnect? && end in last.ends then false
      else before
  }

  lemma {:induction false} IsOnFirst(end: nat, on: bool, step: Step, rest: seq<Step>)
    ensures IsOn(end, on, [step] + rest) == IsOn(end, IsOn(end, on, [step]), rest)
    decreases |rest|
  {
    if rest != [] {
      var last := |rest| - 1;
      IsOnFirst(end, on, step, rest[..last]);
      assert ([step] + rest)[..last + 1] == [step] + rest[..last];
    } else {
      assert [step] + rest == [step];
    }
  }

  lemma {:induction false} RunTurns(w: World, steps: seq<Step>, end: nat)
    requires ValidRun(w, steps)
    ensures end in After(w, steps).enabled <==> IsOn(end, end in w.enabled, steps)
    decreases |steps|
  {
    if steps != [] {
      assert [steps[0]] + steps[1..] == steps && [steps[0]][..0] == [];
      IsOnFirst(end, end in w.enabled, steps[0], steps[1..]);
      RunTurns(Next(w, steps[0]), steps[1..], end);
    }
  }

  /** A call whose handler has returned is answered positively exactly when the reply is
      not dropped, the end was last turned on rather than off, and the server was not
      deleted since the call began; otherwise it fails. */
  lemma AnsweredIff(n: nat, w: World, call: nat, end: nat, steps: seq<Step>, dropped: bool)
    requires Reachable(n, w) && Enabled(w, Begin(call, end)) && ValidRun(Next(w, Begin(call, end)), steps)
    requires Enabled(After(Next(w, Begin(call, end)), steps), Finish(call, dropped))
    ensures var stage := Next(After(Next(w, Begin(call, end)), steps), Finish(call, dropped)).calls[call].stage;
            && (stage == Acked || stage == Failed)
            && (stage == Acked <==> !dropped && IsOn(end, true, steps) && DeleteServer(w.connections[end]) !in steps)
  {
    var node := w.connections[end];
    var inst := w.nodes[node].server.value;
    var begun := Next(w, Begin(call, end));
    ReachableInv(n, w);
    StepKeepsInv(w, Begin(call, end));
    RunKeepsCall(begun, steps, call, end, node, inst);
    RegisteredUntilDeleted(begun, steps, node, inst);
    RunTurns(begun, steps, end);
  }

  /** A step that turns the end off or deletes the server. */
  predicate Disturbs(step: Step, end: nat, node: nat) {
    step == Enable(end, false) || (step.Disconnect? && end in step.ends) || step == DeleteServer(node)
  }

  lemma {:induction false} StaysOn(steps: seq<Step>, end: nat, node: nat)
    requires forall step | step in steps :: !Disturbs(step, end, node)
    ensures IsOn(end, true, steps)
  {
    if steps != [] {
      assert steps[|steps| - 1] in steps;
      StaysOn(steps[..|steps| - 1], end, node);
    }
  }

  /** An undisturbed call is answered, whatever else goes on. */
  lemma UndisturbedIsAnswered(n: nat, w: World, call: nat, end: nat, steps: seq<Step>)
    requires Reachable(n, w) && Enabled(w, Begin(call, end)) && ValidRun(Next(w, Begin(call, end)), steps)
    requires Enabled(After(Next(w, Begin(call, end)), steps), Finish(call, false))
    requires forall step | step in steps :: !Disturbs(step, end, w.connections[end])
    ensures Next(After(Next(w, Begin(call, end)), steps), Finish(call, false)).calls[call].stage == Acked
  {
    var node := w.connections[end];
    assert Disturbs(DeleteServer(node), end, node);
    StaysOn(steps, end, node);
    AnsweredIff(n, w, call, end, steps, false);
  }

  /** What an instance saves is its whole memory, with all it has done; while it is
      registered that is what its node will restart from. */
  lemma SavesItsMemory(n: nat, w: World, inst: nat, id: nat)
    requires Reachable(n, w) && Enabled(w, Work(inst, id))
    ensures var worked := Next(w, Work(inst, id));
            && Enabled(worked, SaveWork(inst))
            && var w' := Next(worked, SaveWork(inst));
               var x := w.instances[inst];
               && x.node < |w.nodes| && w'.nodes == w.nodes
               && (Registered(w, x.node, inst) ==> w.nodes[x.node].saved == Some(x.pid))
               && x.pid < |w'.persisters| && w'.persisters[x.pid] == x.mem + [Local(id)]
  {
    ReachableInv(n, w);
    assert InstanceOk(w, inst);
    assert NodeOk(w, w.instances[inst].node);
  }

  // ---------------------------------------------- calls and restarts complete

  lemma {:induction false} OneMore(w: World, steps: seq<Step>, step: Step)
    requires ValidRun(w, steps) && Enabled(After(w, steps), step)
    ensures ValidRun(w, steps + [step]) && After(w, steps + [step]) == Next(After(w, steps), step)
    decreases |steps|
  {
    if steps == [] {
      assert [step][1..] == [];
    } else {
      OneMore(Next(w, steps[0]), steps[1..], step);
      assert (steps + [step])[1..] == steps[1..] + [step];
    }
  }

  lemma Reach(n: nat, w: World, step: Step) returns (w': World)
    requires Reachable(n, w) && Enabled(w, step)
    ensures w' == Next(w, step) && Reachable(n, w')
  {
    var steps :| ValidRun(Init(n), steps) && After(Init(n), steps) == w;
    OneMore(Init(n), steps, step);
    w' := Next(w, step);
  }

  lemma SentIsInCall(n: nat, w: World, call: nat)
    requires Reachable(n, w) && call in w.calls
    ensures InCall(w, call, w.calls[call].stage)
  {
    ReachableInv(n, w);
    assert CallOk(w, call) && InstanceOk(w, w.calls[call].inst);
  }

  /** Wherever a call can begin, it can be carried through to a positive answer. */
  lemma CallCompletes(n: nat, w: World, call: nat, end: nat) returns (w': World)
    requires Reachable(n, w) && Enabled(w, Begin(call, end))
    ensures Reachable(n, w') && call in w'.calls && w'.calls[call].stage == Acked
    ensures w'.nodes == w.nodes && w'.calls[call].node == w.connections[end]
  {
    w' := Reach(n, w, Begin(call, end));
    SentIsInCall(n, w', call);
    w' := Reach(n, w', Execute(call));
    w' := Reach(n, w', Save(call));
    w' := Reach(n, w', Finish(call, false));
  }

  /** The tester moved on at node i; no instance, call or connection changed. */
  ghost predicate OnlyTester(w: World, w': World, i: nat, phase: Phase) {
    && w'.instances == w.instances && w'.calls == w.calls && w'.enabled == w.enabled && w'.connections == w.connections
    && |w'.nodes| == |w.nodes| && i < |w'.nodes| && w'.nodes[i].phase == phase
  }

  lemma TakesOff(n: nat, w: World, i: nat) returns (w': World)
    requires Reachable(n, w) && i < |w.nodes| && w.nodes[i].phase.Idle?
    ensures Reachable(n, w') && OnlyTester(w, w', i, Deleted(true))
  {
    w' := Reach(n, w, Disconnect(i, {}, true));
    assert w'.enabled == w.enabled;
    w' := Reach(n, w', DeleteServer(i));
  }

  /** One of the tester's copying steps. */
  lemma Copies(n: nat, w: World, step: Step, i: nat) returns (w': World)
    requires Reachable(n, w) && i < |w.nodes|
    requires || (step == CopySaved(i) && w.nodes[i].phase == Deleted(true))
             || (step == Resave(i) && w.nodes[i].phase == Copied(true))
             || (step == HandOver(i) && w.nodes[i].phase == Resaved)
    ensures Reachable(n, w')
    ensures OnlyTester(w, w', i, if step.CopySaved? then Copied(true) else if step.Resave? then Resaved else HandedOver)
    ensures step.HandOver? ==> w'.nodes[i].saved.Some?
  {
    SavedIsThere(n, w, i);
    w' := Reach(n, w, step);
  }

  lemma SavedIsThere(n: nat, w: World, i: nat)
    requires Reachable(n, w) && i < |w.nodes|
    ensures SavedExists(w, i)
  {
    ReachableInv(n, w);
    assert NodeOk(w, i);
  }

  lemma HandsOver(n: nat, w: World, i: nat) returns (w': World)
    requires Reachable(n, w) && i < |w.nodes| && w.nodes[i].phase.Idle?
    ensures Reachable(n, w') && OnlyTester(w, w', i, HandedOver) && w'.nodes[i].saved.Some?
  {
    w' := TakesOff(n, w, i);
    w' := Copies(n, w', CopySaved(i), i);
    w' := Copies(n, w', Resave(i), i);
    w' := Copies(n, w', HandOver(i), i);
  }

  lemma StartsUp(n: nat, w: World, i: nat) returns (w': World)
    requires Reachable(n, w) && i < |w.nodes| && w.nodes[i].phase.HandedOver? && w.nodes[i].saved.Some?
    ensures Reachable(n, w') && w'.calls == w.calls && |w'.nodes| == |w.nodes| && w'.nodes[i].phase.Idle?
    ensures w'.enabled == w.enabled && w'.connections == w.connections
    ensures |w'.instances| == |w.instances| + 1 && w'.nodes[i].server == Some(|w.instances|)
    ensures w'.instances[|w.instances|].node == i
  {
    SavedIsThere(n, w, i);
    w' := Reach(n, w, Make(i));
    w' := Reach(n, w', AddServer(i));
  }

  /** Wherever the tester is idle at a node, it can restart it; the new instance begins
      with everything the node ever answered positively. */
  lemma RestartCompletes(n: nat, w: World, i: nat) returns (w': World)
    requires Reachable(n, w) && i < |w.nodes| && w.nodes[i].phase.Idle?
    ensures Reachable(n, w') && w'.calls == w.calls && |w'.nodes| == |w.nodes| && w'.nodes[i].phase.Idle?
    ensures w'.enabled == w.enabled && w'.connections == w.connections
    ensures |w'.instances| == |w.instances| + 1 && w'.nodes[i].server == Some(|w.instances|)
    ensures w'.instances[|w.instances|].node == i
    ensures forall call | call in w.calls && w.calls[call].stage == Acked && w.calls[call].node == i ::
              Rpc(call) in w'.instances[|w.instances|].birth
  {
    var down := HandsOver(n, w, i);
    w' := StartsUp(n, down, i);
    forall call | call in w.calls && w.calls[call].stage == Acked && w.calls[call].node == i
      ensures Rpc(call) in w'.instances[|w.instances|].birth
    {
      KnownInstance(n, w, call);
      AcknowledgedIsDurable(n, w', call);
    }
  }

  lemma KnownInstance(n: nat, w: World, call: nat)
    requires Reachable(n, w) && call in w.calls
    ensures w.calls[call].inst < |w.instances|
  {
    ReachableInv(n, w);
    assert CallOk(w, call);
  }

  /** So there is a state with an answered call and a later instance that has it. */
  lemma AnsweredThenRestarted() returns (w: World)
    ensures Reachable(1, w) && 9 in w.calls && w.calls[9].stage == Acked
    ensures exists k :: w.calls[9].inst < k < |w.instances| && w.instances[k].node == w.calls[9].node
                        && Rpc(9) in w.instances[k].birth
  {
    w := Init(1);
    assert ValidRun(w, []) && After(w, []) == w;
    w := RestartCompletes(1, w, 0);
    w := Reach(1, w, Connect(5, 0));
    w := Reach(1, w, Enable(5, true));
    w := CallCompletes(1, w, 9, 5);
    KnownInstance(1, w, 9);
    var k := |w.instances|;
    w := RestartCompletes(1, w, 0);
    assert w.calls[9].inst < k < |w.instances|;
  }
}
