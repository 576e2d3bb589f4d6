/** Calls, crashes and restarts: the simulated network decides whether a reply
    may be given, while the tester replaces server instances and their
    persisters. A killed instance is never really stopped, so it keeps running
    handlers and keeps saving.

    A server's state is represented by the sequence of operations it reflects. */
module CrashRestart {

  datatype Option<+T> = None | Some(value: T)

  datatype Op = Rpc(call: nat) | Local(id: nat)

  type State = seq<Op>

  /** One server instance. It saves into persister `pid`, was started from the
      state `birth`, and follows instance `prev` of the same node. */
  datatype Instance = Instance(node: nat, pid: nat, prev: Option<nat>, birth: State, mem: State)

  datatype Stage = Sent | Executed | Returned | Acked | Failed

  /** A call in progress. The instance is the one looked up when the request
      was taken off the wire. */
  datatype Call = Call(end: nat, node: nat, inst: nat, stage: Stage)

  /** Where the tester is in crash1, or in start1 which begins with crash1. */
  datatype Phase = Idle | Disconnected(restart: bool) | Deleted(restart: bool) | Copied(restart: bool)
                 | Resaved | HandedOver | Made

  datatype Node = Node(server: Option<nat>, saved: Option<nat>, latest: Option<nat>, phase: Phase)

  datatype World = World(
    nodes: seq<Node>,
    instances: seq<Instance>,
    persisters: seq<State>,
    calls: map<nat, Call>,
    enabled: set<nat>,
    connections: map<nat, nat>)

  datatype Step =
    | Connect(end: nat, node: nat)
    | Enable(end: nat, on: bool)
    | Begin(call: nat, end: nat)
    | Execute(call: nat)
    | Save(call: nat)
    | Finish(call: nat, dropped: bool)
    | Abandon(call: nat)
    | Work(inst: nat, id: nat)
    | SaveWork(inst: nat)
    | Disconnect(node: nat, ends: set<nat>, restart: bool)
    | DeleteServer(node: nat)
    | CopySaved(node: nat)
    | Resave(node: nat)
    | HandOver(node: nat)
    | Make(node: nat)
    | AddServer(node: nat)

  function Init(n: nat): World {
    World(seq(n, _ => Node(None, None, None, Idle)), [], [], map[], {}, map[])
  }

  ghost predicate InCall(w: World, call: nat, stage: Stage) {
    && call in w.calls && w.calls[call].stage == stage && w.calls[call].inst < |w.instances|
    && w.instances[w.calls[call].inst].pid < |w.persisters| && w.calls[call].node < |w.nodes|
  }

  ghost predicate Enabled(w: World, step: Step) {
    match step
    case Connect(end, node) => end !in w.connections && node < |w.nodes|
    case Enable(_, _) => true
    case Begin(call, end) =>
      && call !in w.calls && end in w.enabled && end in w.connections
      && w.connections[end] < |w.nodes| && w.nodes[w.connections[end]].server.Some?
    case Execute(call) => InCall(w, call, Sent)
    case Save(call) => InCall(w, call, Executed)
    case Finish(call, _) => InCall(w, call, Returned)
    case Abandon(call) => InCall(w, call, Sent) || (InCall(w, call, Executed) && !Alive(w, w.calls[call]))
    case Work(inst, _) => inst < |w.instances|
    case SaveWork(inst) => inst < |w.instances| && w.instances[inst].pid < |w.persisters|
    case Disconnect(node, _, _) => node < |w.nodes| && w.nodes[node].phase == Idle
    case DeleteServer(node) => node < |w.nodes| && w.nodes[node].phase.Disconnected?
    case CopySaved(node) => node < |w.nodes| && w.nodes[node].phase.Deleted? && SavedExists(w, node)
    case Resave(node) => node < |w.nodes| && w.nodes[node].phase.Copied? && SavedExists(w, node)
    case HandOver(node) => node < |w.nodes| && w.nodes[node].phase == Resaved && SavedExists(w, node)
    case Make(node) =>
      node < |w.nodes| && w.nodes[node].phase == HandedOver && w.nodes[node].saved.Some? && SavedExists(w, node)
    case AddServer(node) => node < |w.nodes| && w.nodes[node].phase == Made
  }

  predicate SavedExists(w: World, node: nat)
    requires node < |w.nodes|
  {
    w.nodes[node].saved.Some? ==> w.nodes[node].saved.value < |w.persisters|
  }

  function SetStage(w: World, call: nat, stage: Stage): World
    requires call in w.calls
  {
    w.(calls := w.calls[call := w.calls[call].(stage := stage)])
  }

  function Remember(w: World, inst: nat, op: Op): World
    requires inst < |w.instances|
  {
    w.(instances := w.instances[inst := w.instances[inst].(mem := w.instances[inst].mem + [op])])
  }

  /** The instance saves what it holds into its own persister. */
  function Persist(w: World, inst: nat): World
    requires inst < |w.instances| && w.instances[inst].pid < |w.persisters|
  {
    w.(persisters := w.persisters[w.instances[inst].pid := w.instances[inst].mem])
  }

  function SetNode(w: World, node: nat, to: Node): World
    requires node < |w.nodes|
  {
    w.(nodes := w.nodes[node := to])
  }

  /** The node's saved state moves to a fresh persister with the same content. */
  function FreshCopy(w: World, node: nat, phase: Phase): World
    requires node < |w.nodes| && SavedExists(w, node)
  {
    var nd := w.nodes[node];
    if nd.saved.None? then SetNode(w, node, nd.(phase := phase))
    else
      SetNode(w, node, nd.(phase := phase, saved := Some(|w.persisters|)))
      .(persisters := w.persisters + [w.persisters[nd.saved.value]])
  }

  /** An instance is dead for a call once its end is off or another instance, or
      none, is registered under the node's name. */
  predicate Alive(w: World, call: Call) {
    call.end in w.enabled && call.node < |w.nodes| && w.nodes[call.node].server == Some(call.inst)
  }

  function Next(w: World, step: Step): World
    requires Enabled(w, step)
  {
    match step
    case Connect(end, node) => w.(connections := w.connections[end := node])
    case Enable(end, on) => w.(enabled := if on then w.enabled + {end} else w.enabled - {end})
    case Begin(call, end) =>
      var node := w.connections[end];
      w.(calls := w.calls[call := Call(end, node, w.nodes[node].server.value, Sent)])
    case Execute(call) => SetStage(Remember(w, w.calls[call].inst, Rpc(call)), call, Executed)
    case Save(call) => SetStage(Persist(w, w.calls[call].inst), call, Returned)
    case Finish(call, dropped) =>
      SetStage(w, call, if Alive(w, w.calls[call]) && !dropped then Acked else Failed)
    case Abandon(call) => SetStage(w, call, Failed)
    case Work(inst, id) => Remember(w, inst, Local(id))
    case SaveWork(inst) => Persist(w, inst)
    case Disconnect(node, ends, restart) =>
      SetNode(w, node, w.nodes[node].(phase := Disconnected(restart))).(enabled := w.enabled - ends)
    case DeleteServer(node) =>
      var nd := w.nodes[node];
      SetNode(w, node, nd.(server := None, phase := Deleted(nd.phase.restart)))
    case CopySaved(node) => FreshCopy(w, node, Copied(w.nodes[node].phase.restart))
    case Resave(node) => FreshCopy(w, node, if w.nodes[node].phase.restart then Resaved else Idle)
    case HandOver(node) =>
      if w.nodes[node].saved.Some? then FreshCopy(w, node, HandedOver)
      else
        SetNode(w, node, w.nodes[node].(phase := HandedOver, saved := Some(|w.persisters|)))
        .(persisters := w.persisters + [[]])
    case Make(node) =>
      var nd := w.nodes[node];
      var state := w.persisters[nd.saved.value];
      SetNode(w, node, nd.(phase := Made, latest := Some(|w.instances|)))
      .(instances := w.instances + [Instance(node, nd.saved.value, nd.latest, state, state)])
    case AddServer(node) =>
      SetNode(w, node, w.nodes[node].(server := w.nodes[node].latest, phase := Idle))
  }

  // ------------------------------------------------------------- invariant

  ghost predicate NodeOk(w: World, i: nat)
    requires i < |w.nodes|
  {
    var nd := w.nodes[i];
    && (nd.saved.Some? ==> nd.saved.value < |w.persisters|)
    && (nd.latest.Some? ==>
          && nd.latest.value < |w.instances| && w.instances[nd.latest.value].node == i && nd.saved.Some?
          && w.instances[nd.latest.value].birth <= w.persisters[nd.saved.value] <= w.instances[nd.latest.value].mem)
    && (nd.server.Some? ==> nd.server == nd.latest && nd.saved == Some(w.instances[nd.server.value].pid))
    && (nd.server.Some? ==> nd.phase.Idle? || nd.phase.Disconnected?)
    && (nd.phase.Made? ==> nd.latest.Some? && nd.saved == Some(w.instances[nd.latest.value].pid))
  }

  ghost predicate InstanceOk(w: World, k: nat)
    requires k < |w.instances|
  {
    var x := w.instances[k];
    && x.node < |w.nodes| && x.pid < |w.persisters|
    && w.persisters[x.pid] <= x.mem && x.birth <= x.mem
    && w.nodes[x.node].latest.Some? && k <= w.nodes[x.node].latest.value
    && (x.prev.Some? ==> x.prev.value < k && w.instances[x.prev.value].node == x.node
                         && w.instances[x.prev.value].birth <= x.birth <= w.instances[x.prev.value].mem)
  }

  /** No two owners: an instance's persister is its own, and a node's saved
      persister belongs to no instance but possibly its latest. */
  ghost predicate Separate(w: World) {
    && (forall j, k | 0 <= j < k < |w.instances| :: w.instances[j].pid != w.instances[k].pid)
    && (forall i, k | 0 <= i < |w.nodes| && 0 <= k < |w.instances| && w.nodes[i].saved == Some(w.instances[k].pid) ::
          w.nodes[i].latest == Some(k))
    && (forall i, j | 0 <= i < j < |w.nodes| && w.nodes[i].saved.Some? :: w.nodes[i].saved != w.nodes[j].saved)
    && (forall i, k | 0 <= i < |w.nodes| && 0 <= k < |w.instances| && Detached(w.nodes[i]) ::
          w.nodes[i].saved != Some(w.instances[k].pid))
  }

  /** From the copy to the next instance, nobody owns the saved state. */
  predicate Detached(nd: Node) {
    || nd.phase.Copied? || nd.phase.Resaved? || nd.phase.HandedOver?
    || (nd.server.None? && (nd.phase.Idle? || nd.phase.Disconnected?))
  }

  predicate Stored(w: World, pid: nat, op: Op) {
    pid < |w.persisters| && op in w.persisters[pid]
  }

  ghost predicate CallOk(w: World, call: nat)
    requires call in w.calls
  {
    var x := w.calls[call];
    && x.inst < |w.instances| && x.node < |w.nodes| && w.instances[x.inst].node == x.node
    && (x.stage.Executed? ==> Rpc(call) in w.instances[x.inst].mem)
    && (x.stage.Returned? || x.stage.Acked? ==> Stored(w, w.instances[x.inst].pid, Rpc(call)))
    && (x.stage.Acked? ==>
          && w.nodes[x.node].saved.Some? && Stored(w, w.nodes[x.node].saved.value, Rpc(call))
          && forall k | x.inst < k < |w.instances| && w.instances[k].node == x.node :: Rpc(call) in w.instances[k].birth)
  }

  ghost predicate Inv(w: World) {
    && (forall i | 0 <= i < |w.nodes| :: NodeOk(w, i))
    && (forall k | 0 <= k < |w.instances| :: InstanceOk(w, k))
    && Separate(w)
    && (forall call | call in w.calls :: CallOk(w, call))
  }

  // ------------------------------------------------ the invariant, by step

  /** A step that leaves nodes, instances and persisters alone. */
  lemma NetworkStep(w: World, w': World)
    requires Inv(w) && w'.nodes == w.nodes && w'.instances == w.instances && w'.persisters == w.persisters
    requires forall c | c in w'.calls && !(c in w.calls && w'.calls[c] == w.calls[c]) :: CallOk(w', c)
    ensures Inv(w')
  {
    forall i | 0 <= i < |w'.nodes| ensures NodeOk(w', i) {
      assert NodeOk(w, i);
    }
    forall k | 0 <= k < |w'.instances| ensures InstanceOk(w', k) {
      assert InstanceOk(w, k);
    }
    forall c | c in w'.calls ensures CallOk(w', c) {
      if c in w.calls && w'.calls[c] == w.calls[c] {
        assert CallOk(w, c);
      }
    }
  }

  lemma BeginKeepsInv(w: World, call: nat, end: nat)
    requires Inv(w) && Enabled(w, Begin(call, end))
    ensures Inv(Next(w, Begin(call, end)))
  {
    assert NodeOk(w, w.connections[end]);
    NetworkStep(w, Next(w, Begin(call, end)));
  }

  /** A reply is given only while the instance is still the registered one, so
      its persister is still the node's saved one: the server is deleted before
      the saved state is copied. */
  lemma FinishKeepsInv(w: World, call: nat, dropped: bool)
    requires Inv(w) && Enabled(w, Finish(call, dropped))
    ensures Inv(Next(w, Finish(call, dropped)))
  {
    var x := w.calls[call];
    var w' := Next(w, Finish(call, dropped));
    assert CallOk(w, call) && NodeOk(w, x.node);
    forall k | 0 <= k < |w.instances| && w.instances[k].node == x.node
      ensures w.nodes[x.node].latest.Some? && k <= w.nodes[x.node].latest.value
    {
      assert InstanceOk(w, k);
    }
    assert CallOk(w', call);
    NetworkStep(w, w');
  }

  lemma AbandonKeepsInv(w: World, call: nat)
    requires Inv(w) && Enabled(w, Abandon(call))
    ensures Inv(Next(w, Abandon(call)))
  {
    assert CallOk(w, call);
    NetworkStep(w, Next(w, Abandon(call)));
  }

  lemma RememberKeepsInv(w: World, inst: nat, op: Op)
    requires Inv(w) && inst < |w.instances|
    ensures Inv(Remember(w, inst, op))
  {
    var w' := Remember(w, inst, op);
    assert w.instances[inst].mem <= w'.instances[inst].mem;
    forall i | 0 <= i < |w'.nodes| ensures NodeOk(w', i) {
      assert NodeOk(w, i);
      if w.nodes[i].latest == Some(inst) {
        Grows(w.persisters[w.nodes[i].saved.value], w.instances[inst].mem, w'.instances[inst].mem);
      }
    }
    forall k | 0 <= k < |w'.instances| ensures InstanceOk(w', k) {
      assert InstanceOk(w, k);
      if k == inst {
        Grows(w.persisters[w.instances[k].pid], w.instances[k].mem, w'.instances[k].mem);
        Grows(w.instances[k].birth, w.instances[k].mem, w'.instances[k].mem);
      }
      if w.instances[k].prev == Some(inst) {
        Grows(w.instances[k].birth, w.instances[inst].mem, w'.instances[inst].mem);
      }
    }
    forall c | c in w'.calls ensures CallOk(w', c) {
      assert CallOk(w, c);
    }
  }

  lemma Grows(a: State, b: State, c: State)
    requires a <= b && b <= c
    ensures a <= c
  {
    assert forall i | 0 <= i < |a| :: a[i] == b[i] == c[i];
  }

  lemma PrefixKeeps(a: State, b: State, op: Op)
    requires a <= b && op in a
    ensures op in b
  {
    var i :| 0 <= i < |a| && a[i] == op;
    assert b[i] == op;
  }

  lemma PersistKeepsInv(w: World, inst: nat)
    requires Inv(w) && inst < |w.instances| && w.instances[inst].pid < |w.persisters|
    ensures Inv(Persist(w, inst))
  {
    var w' := Persist(w, inst);
    var pid := w.instances[inst].pid;
    assert InstanceOk(w, inst);
    assert w.persisters[pid] <= w'.persisters[pid];
    forall i | 0 <= i < |w'.nodes| ensures NodeOk(w', i) {
      assert NodeOk(w, i);
    }
    forall k | 0 <= k < |w'.instances| ensures InstanceOk(w', k) {
      assert InstanceOk(w, k);
    }
    forall c | c in w'.calls ensures CallOk(w', c) {
      assert CallOk(w, c);
      if Stored(w, pid, Rpc(c)) {
        PrefixKeeps(w.persisters[pid], w'.persisters[pid], Rpc(c));
      }
    }
  }

  lemma ExecuteKeepsInv(w: World, call: nat)
    requires Inv(w) && Enabled(w, Execute(call))
    ensures Inv(Next(w, Execute(call)))
  {
    var mid := Remember(w, w.calls[call].inst, Rpc(call));
    RememberKeepsInv(w, w.calls[call].inst, Rpc(call));
    assert CallOk(mid, call);
    NetworkStep(mid, Next(w, Execute(call)));
  }

  lemma SaveKeepsInv(w: World, call: nat)
    requires Inv(w) && Enabled(w, Save(call))
    ensures Inv(Next(w, Save(call)))
  {
    var mid := Persist(w, w.calls[call].inst);
    assert CallOk(w, call);
    PersistKeepsInv(w, w.calls[call].inst);
    assert CallOk(mid, call);
    NetworkStep(mid, Next(w, Save(call)));
  }

  /** A step of the tester on one node: the instances stay, the persisters only
      gain, and the node's saved content is kept. */
  lemma TesterStep(w: World, w': World, i: nat)
    requires Inv(w) && i < |w.nodes| == |w'.nodes| && w'.instances == w.instances && w'.calls == w.calls
    requires w.persisters <= w'.persisters
    requires forall j | 0 <= j < |w.nodes| && j != i :: w'.nodes[j] == w.nodes[j]
    requires w'.nodes[i].latest == w.nodes[i].latest
    requires NodeOk(w', i) && Separate(w')
    requires w.nodes[i].saved.Some? ==>
               && w'.nodes[i].saved.Some? && w'.nodes[i].saved.value < |w'.persisters|
               && w.nodes[i].saved.value < |w.persisters|
               && w'.persisters[w'.nodes[i].saved.value] == w.persisters[w.nodes[i].saved.value]
    ensures Inv(w')
  {
    assert forall p | 0 <= p < |w.persisters| :: w'.persisters[p] == w.persisters[p];
    forall j | 0 <= j < |w'.nodes| ensures NodeOk(w', j) {
      if j != i {
        assert NodeOk(w, j);
      }
    }
    forall k | 0 <= k < |w'.instances| ensures InstanceOk(w', k) {
      assert InstanceOk(w, k);
    }
    forall c | c in w'.calls ensures CallOk(w', c) {
      assert CallOk(w, c);
      assert InstanceOk(w, w.calls[c].inst) && NodeOk(w, w.calls[c].node);
    }
  }

  lemma CopyKeepsInv(w: World, i: nat, phase: Phase)
    requires Inv(w) && i < |w.nodes| && SavedExists(w, i) && w.nodes[i].server.None?
    requires phase.Copied? || phase.Resaved? || phase.HandedOver? || phase.Idle?
    ensures Inv(FreshCopy(w, i, phase))
  {
    var w' := FreshCopy(w, i, phase);
    assert NodeOk(w, i);
    assert w.persisters <= w'.persisters;
    assert NodeOk(w', i);
    assert Separate(w') by {
      SavedInRange(w);
    }
    TesterStep(w, w', i);
  }

  lemma SavedInRange(w: World)
    requires Inv(w)
    ensures forall i | 0 <= i < |w.nodes| && w.nodes[i].saved.Some? :: w.nodes[i].saved.value < |w.persisters|
    ensures forall k | 0 <= k < |w.instances| :: w.instances[k].pid < |w.persisters|
  {
    forall i | 0 <= i < |w.nodes| && w.nodes[i].saved.Some? ensures w.nodes[i].saved.value < |w.persisters| {
      assert NodeOk(w, i);
    }
    forall k | 0 <= k < |w.instances| ensures w.instances[k].pid < |w.persisters| {
      assert InstanceOk(w, k);
    }
  }

  lemma FirstPersisterKeepsInv(w: World, i: nat)
    requires Inv(w) && Enabled(w, HandOver(i)) && w.nodes[i].saved.None?
    ensures Inv(Next(w, HandOver(i)))
  {
    var w' := Next(w, HandOver(i));
    assert NodeOk(w, i);
    SavedInRange(w);
    assert NodeOk(w', i) && Separate(w');
    TesterStep(w, w', i);
  }

  lemma PhaseKeepsInv(w: World, i: nat, nd: Node)
    requires Inv(w) && i < |w.nodes|
    requires nd.saved == w.nodes[i].saved && nd.latest == w.nodes[i].latest
    requires NodeOk(SetNode(w, i, nd), i)
    requires Detached(nd) ==> Detached(w.nodes[i])
    ensures Inv(SetNode(w, i, nd))
  {
    assert NodeOk(w, i);
    assert Separate(SetNode(w, i, nd));
    TesterStep(w, SetNode(w, i, nd), i);
  }

  lemma MakeInstances(w: World, i: nat)
    requires Inv(w) && Enabled(w, Make(i))
    ensures var w' := Next(w, Make(i)); forall k | 0 <= k < |w'.instances| :: InstanceOk(w', k)
  {
    var w' := Next(w, Make(i));
    assert NodeOk(w, i);
    forall k | 0 <= k < |w'.instances| ensures InstanceOk(w', k) {
      if k < |w.instances| {
        assert InstanceOk(w, k);
      }
    }
  }

  /** Whatever was answered positively on the node is in the state the new
      instance begins from. */
  lemma MakeCalls(w: World, i: nat)
    requires Inv(w) && Enabled(w, Make(i))
    ensures var w' := Next(w, Make(i)); forall c | c in w'.calls :: CallOk(w', c)
  {
    var w' := Next(w, Make(i));
    forall c | c in w'.calls ensures CallOk(w', c) {
      assert CallOk(w, c);
    }
  }

  lemma MakeKeepsInv(w: World, i: nat)
    requires Inv(w) && Enabled(w, Make(i))
    ensures Inv(Next(w, Make(i)))
  {
    var w' := Next(w, Make(i));
    forall j | 0 <= j < |w'.nodes| ensures NodeOk(w', j) {
      assert NodeOk(w, j);
    }
    MakeInstances(w, i);
    MakeCalls(w, i);
    MakeSeparate(w, i);
  }

  lemma MakeSeparate(w: World, i: nat)
    requires Inv(w) && Enabled(w, Make(i))
    ensures Separate(Next(w, Make(i)))
  {
    var w' := Next(w, Make(i));
    SavedInRange(w);
    assert forall k | 0 <= k < |w.instances| :: w'.instances[k] == w.instances[k];
    assert forall j | 0 <= j < |w.nodes| && j != i :: w'.nodes[j] == w.nodes[j];
    forall j, k | 0 <= j < |w'.nodes| && 0 <= k < |w'.instances| && w'.nodes[j].saved == Some(w'.instances[k].pid)
      ensures w'.nodes[j].latest == Some(k) && !Detached(w'.nodes[j])
    {
      if k < |w.instances| {
        assert w.nodes[j].latest == Some(k);
      }
      assert j == i || NodeOk(w, j);
    }
  }

  lemma NodeStepKeepsInv(w: World, step: Step)
    requires Inv(w) && Enabled(w, step)
    requires step.Disconnect? || step.DeleteServer? || step.AddServer?
    ensures Inv(Next(w, step))
  {
    var i := step.node;
    var nd := Next(w, step).nodes[i];
    assert NodeOk(w, i);
    PhaseKeepsInv(w, i, nd);
    if step.Disconnect? {
      NetworkStep(SetNode(w, i, nd), Next(w, step));
    }
  }

  lemma CopyingKeepsInv(w: World, step: Step)
    requires Inv(w) && Enabled(w, step) && (step.CopySaved? || step.Resave? || step.HandOver?)
    ensures Inv(Next(w, step))
  {
    var i := step.node;
    assert NodeOk(w, i);
    if step.CopySaved? {
      CopyKeepsInv(w, i, Copied(w.nodes[i].phase.restart));
    } else if step.Resave? {
      CopyKeepsInv(w, i, if w.nodes[i].phase.restart then Resaved else Idle);
    } else if w.nodes[i].saved.Some? {
      CopyKeepsInv(w, i, HandedOver);
    } else {
      FirstPersisterKeepsInv(w, i);
    }
  }

  lemma StepKeepsInv(w: World, step: Step)
    requires Inv(w) && Enabled(w, step)
    ensures Inv(Next(w, step))
  {
    match step
    case Connect(_, _) => NetworkStep(w, Next(w, step));
    case Enable(_, _) => NetworkStep(w, Next(w, step));
    case Begin(call, end) => BeginKeepsInv(w, call, end);
    case Execute(call) => ExecuteKeepsInv(w, call);
    case Save(call) => SaveKeepsInv(w, call);
    case Finish(call, dropped) => FinishKeepsInv(w, call, dropped);
    case Abandon(call) => AbandonKeepsInv(w, call);
    case Work(inst, id) => RememberKeepsInv(w, inst, Local(id));
    case SaveWork(inst) => PersistKeepsInv(w, inst);
    case Disconnect(_, _, _) => NodeStepKeepsInv(w, step);
    case DeleteServer(_) => NodeStepKeepsInv(w, step);
    case CopySaved(_) => CopyingKeepsInv(w, step);
    case Resave(_) => CopyingKeepsInv(w, step);
    case HandOver(_) => CopyingKeepsInv(w, step);
    case Make(i) => MakeKeepsInv(w, i);
    case AddServer(_) => NodeStepKeepsInv(w, step);
  }

  // ------------------------------------------------------------- whole runs

  ghost predicate ValidRun(w: World, steps: seq<Step>)
    decreases |steps|
  {
    steps == [] || (Enabled(w, steps[0]) && ValidRun(Next(w, steps[0]), steps[1..]))
  }

  ghost function After(w: World, steps: seq<Step>): (r: World)
    requires ValidRun(w, steps)
    ensures |r.nodes| == |w.nodes|
    decreases |steps|
  {
    if steps == [] then w else After(Next(w, steps[0]), steps[1..])
  }

  lemma {:induction false} RunKeepsInv(w: World, steps: seq<Step>)
    requires Inv(w) && ValidRun(w, steps)
    ensures Inv(After(w, steps))
    decreases |steps|
  {
    if steps != [] {
      StepKeepsInv(w, steps[0]);
      RunKeepsInv(Next(w, steps[0]), steps[1..]);
    }
  }

  ghost predicate Reachable(n: nat, w: World) {
    exists steps: seq<Step> :: ValidRun(Init(n), steps) && After(Init(n), steps) == w
  }

  lemma ReachableInv(n: nat, w: World)
    requires Reachable(n, w)
    ensures Inv(w) && |w.nodes| == n
  {
    var steps :| ValidRun(Init(n), steps) && After(Init(n), steps) == w;
    RunKeepsInv(Init(n), steps);
  }

  /** If a call was answered positively by an instance, then in every
      interleaving of calls, saves, crashes and restarts its effect is in the
      node's saved state, and every later instance of the node was started from
      a state that has it. */
  lemma AcknowledgedIsDurable(n: nat, w: World, call: nat)
    requires Reachable(n, w) && call in w.calls && w.calls[call].stage == Acked
    ensures var x := w.calls[call];
            && x.node < n == |w.nodes| && x.inst < |w.instances|
            && w.nodes[x.node].saved.Some? && Stored(w, w.nodes[x.node].saved.value, Rpc(call))
            && forall k | x.inst < k < |w.instances| && w.instances[k].node == x.node ::
                 Rpc(call) in w.instances[k].birth
  {
    ReachableInv(n, w);
    assert CallOk(w, call);
  }

  /** The next instance of a node resumes from a state its predecessor had, at its
      birth or later, and one that has every call the predecessor answered
      positively. */
  lemma NextInstanceResumes(n: nat, w: World, k: nat, call: nat)
    requires Reachable(n, w) && k < |w.instances| && w.instances[k].prev.Some?
    ensures var x := w.instances[k];
            && x.prev.value < k && w.instances[x.prev.value].node == x.node
            && w.instances[x.prev.value].birth <= x.birth <= w.instances[x.prev.value].mem
            && (call in w.calls && w.calls[call].stage == Acked && w.calls[call].inst == x.prev.value ==>
                  Rpc(call) in x.birth)
  {
    ReachableInv(n, w);
    assert InstanceOk(w, k);
    if call in w.calls {
      assert CallOk(w, call);
    }
  }

  /** What the node will restart from. */
  ghost predicate Holds(w: World, i: nat, state: State) {
    && i < |w.nodes| && w.nodes[i].saved.Some? && w.nodes[i].saved.value < |w.persisters|
    && w.persisters[w.nodes[i].saved.value] == state
    && forall k | 0 <= k < |w.instances| :: w.nodes[i].saved != Some(w.instances[k].pid)
  }

  lemma FrozenCopy(w: World, node: nat, phase: Phase, i: nat, state: State)
    requires Inv(w) && node < |w.nodes| && SavedExists(w, node) && Holds(w, i, state)
    ensures Holds(FreshCopy(w, node, phase), i, state)
  {
    SavedInRange(w);
  }

  lemma FrozenMake(w: World, node: nat, i: nat, state: State)
    requires Inv(w) && Enabled(w, Make(node)) && Holds(w, i, state) && node != i
    ensures Holds(Next(w, Make(node)), i, state)
  {
    SavedInRange(w);
    assert w.nodes[i].saved != w.nodes[node].saved;
  }

  lemma FrozenStep(w: World, step: Step, i: nat, state: State)
    requires Inv(w) && Enabled(w, step) && Holds(w, i, state) && step != Make(i)
    ensures Holds(Next(w, step), i, state)
  {
    SavedInRange(w);
    match step
    case Make(node) => FrozenMake(w, node, i, state);
    case CopySaved(node) => FrozenCopy(w, node, Copied(w.nodes[node].phase.restart), i, state);
    case Resave(node) => FrozenCopy(w, node, if w.nodes[node].phase.restart then Resaved else Idle, i, state);
    case HandOver(node) =>
      if w.nodes[node].saved.Some? {
        FrozenCopy(w, node, HandedOver, i, state);
      }
    case _ =>
  }

  /** Once the saved state has been copied away from a dead instance, nothing
      any instance saves later changes what the node restarts from. */
  lemma {:induction false} DeadInstanceCannotInterfere(w: World, steps: seq<Step>, i: nat, state: State)
    requires Inv(w) && ValidRun(w, steps) && Holds(w, i, state)
    requires Make(i) !in steps
    ensures Holds(After(w, steps), i, state)
    decreases |steps|
  {
    if steps != [] {
      StepKeepsInv(w, steps[0]);
      FrozenStep(w, steps[0], i, state);
      DeadInstanceCannotInterfere(Next(w, steps[0]), steps[1..], i, state);
    }
  }

  /** The copy made on the way down leaves the node with a state of its own. */
  lemma CopyDetaches(n: nat, w: World, i: nat)
    requires Reachable(n, w) && Enabled(w, CopySaved(i)) && w.nodes[i].saved.Some?
    ensures Holds(Next(w, CopySaved(i)), i, w.persisters[w.nodes[i].saved.value])
  {
    ReachableInv(n, w);
    SavedInRange(w);
  }
}
