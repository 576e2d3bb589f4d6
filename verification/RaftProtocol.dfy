/** The whole cluster as a step relation: leaders append and send, messages are
    delivered late, again or never, replies come back in any order, servers
    crash and restart from what they saved.

    Elections are an environment step: at most one leader per term, and a leader
    never has committed past its own log when it takes office. */
module RaftProtocol {
  import opened RaftState
  import opened RaftNode

  /** History of one term's leader: who it is, how long its log was when it took
      office, and its log now (or when it left office). */
  datatype Reign = Reign(id: nat, base: nat, log: Log)

  /** A message in flight, with the sender's log at the moment of sending. */
  datatype Request = Request(dst: nat, args: AppendEntriesArgs, sentLog: Log)

  datatype Response = Response(peer: nat, args: AppendEntriesArgs, reply: AppendEntriesReply)

  /** `synced` is history: for each server the last term whose leader it accepted a
      message from or which it led itself; 0 stands for none. */
  datatype Cluster = Cluster(
    servers: seq<Server>,
    disks: seq<Saved>,
    synced: seq<nat>,
    reigns: map<nat, Reign>,
    requests: set<Request>,
    responses: set<Response>)

  datatype Step =
    | Elect(p: nat, term: nat, own: nat)
    | ChangeRole(p: nat, term: nat, role: Role)
    | Start(p: nat, command: Command, own: nat)
    | Send(p: nat, peer: nat)
    | Deliver(m: Request)
    | Receive(r: Response)
    | Crash(p: nat)

  function Init(n: nat): Cluster {
    Cluster(seq(n, i requires 0 <= i < n => Restarted(i, n, Saved(0, [SENTINEL]))),
            seq(n, _ => Saved(0, [SENTINEL])),
            seq(n, _ => 0),
            map[], {}, {})
  }

  // ---------------------------------------------------------------- steps

  ghost predicate Enabled(c: Cluster, step: Step)
    requires Shape(c)
  {
    match step
    case Elect(p, term, own) =>
      && p < |c.servers| && term >= 1 && term >= c.servers[p].currentTerm && term !in c.reigns
      && own < |c.servers[p].log| && c.servers[p].commitIndex < |c.servers[p].log|
    case ChangeRole(p, term, role) =>
      p < |c.servers| && term >= c.servers[p].currentTerm && role != Leader
    case Start(p, _, own) =>
      p < |c.servers| && c.servers[p].role == Leader && own <= |c.servers[p].log|
    case Send(p, peer) =>
      p < |c.servers| && c.servers[p].role == Leader && peer < |c.servers|
    case Deliver(m) => m in c.requests && m.dst < |c.servers|
    case Receive(r) => r in c.responses && r.args.leaderId < |c.servers| && r.peer < |c.servers|
    case Crash(p) => p < |c.servers|
  }

  /** Server p replaced, with its save, its history and the reigns. */
  function Replace(c: Cluster, p: nat, sv: Server, synced: nat, reigns: map<nat, Reign>): Cluster
    requires p < |c.servers| == |c.disks| == |c.synced|
  {
    c.(servers := c.servers[p := sv], disks := c.disks[p := SavedState(sv)],
       synced := c.synced[p := synced], reigns := reigns)
  }

  function InOffice(sv: Server, term: nat, own: nat): Server
    requires sv.me < |sv.matchIndex|
  {
    sv.(role := Leader, currentTerm := term,
        nextIndex := seq(|sv.nextIndex|, _ => |sv.log|),
        matchIndex := seq(|sv.matchIndex|, _ => 0)[sv.me := own])
  }

  function Appended(sv: Server, command: Command, own: nat): Server
    requires sv.me < |sv.matchIndex|
  {
    sv.(log := sv.log + [Entry(sv.currentTerm, command)], matchIndex := sv.matchIndex[sv.me := own])
  }

  function Next(c: Cluster, step: Step): Cluster
    requires Shape(c) && Enabled(c, step)
  {
    match step
    case Elect(p, term, own) =>
      var sv := c.servers[p];
      Replace(c, p, InOffice(sv, term, own), term,
              c.reigns[term := Reign(p, |sv.log|, sv.log)])
    case ChangeRole(p, term, role) =>
      Replace(c, p, c.servers[p].(currentTerm := term, role := role), c.synced[p], c.reigns)
    case Start(p, command, own) =>
      var sv := Appended(c.servers[p], command, own);
      var t := sv.currentTerm;
      var reigns := if t in c.reigns then c.reigns[t := c.reigns[t].(log := sv.log)] else c.reigns;
      Replace(c, p, sv, c.synced[p], reigns)
    case Send(p, peer) =>
      var sv := c.servers[p];
      c.(requests := c.requests + {Request(peer, MakeAppendEntriesArgs(sv, peer), sv.log)})
    case Deliver(m) =>
      var sv := c.servers[m.dst];
      var h := HandleAppendEntries(sv, m.args);
      var synced := if h.reply.success then m.args.term else c.synced[m.dst];
      Replace(c, m.dst, h.server, synced, c.reigns)
        .(responses := c.responses + {Response(m.dst, m.args, h.reply)})
    case Receive(r) =>
      var p := r.args.leaderId;
      var sv := HandleReply(c.servers[p], r.peer, r.args, r.reply);
      Replace(c, p, sv, c.synced[p], c.reigns)
    case Crash(p) =>
      Replace(c, p, Restarted(p, |c.servers|, c.disks[p]), c.synced[p], c.reigns)
  }

  // ------------------------------------------------------------ invariant

  ghost predicate Shape(c: Cluster) {
    && |c.servers| == |c.disks| == |c.synced|
    && forall p | 0 <= p < |c.servers| ::
         && c.servers[p].WellFormed() && c.servers[p].me == p
         && |c.servers[p].nextIndex| == |c.servers|
         && c.disks[p] == SavedState(c.servers[p])
  }

  /** Every entry was put there by its term's leader, under the same prefix. */
  ghost predicate Backed(log: Log, reigns: map<nat, Reign>) {
    forall i | 1 <= i < |log| ::
      && log[i].term in reigns && i < |reigns[log[i].term].log|
      && log[..i + 1] == reigns[log[i].term].log[..i + 1]
  }

  ghost predicate ReignOk(t: nat, r: Reign, n: nat, reigns: map<nat, Reign>) {
    && t >= 1 && r.id < n && 1 <= r.base <= |r.log| && r.log[0] == SENTINEL
    && (forall i | 0 <= i < r.base :: r.log[i].term < t)
    && (forall i | r.base <= i < |r.log| :: r.log[i].term == t)
    && Backed(r.log, reigns)
  }

  ghost predicate ReignsOk(n: nat, reigns: map<nat, Reign>) {
    forall t | t in reigns :: ReignOk(t, reigns[t], n, reigns)
  }

  ghost predicate LeaderOk(sv: Server, reigns: map<nat, Reign>) {
    && sv.currentTerm in reigns
    && reigns[sv.currentTerm].id == sv.me && reigns[sv.currentTerm].log == sv.log
    && sv.commitIndex < |sv.log|
    && (forall q | 0 <= q < |sv.matchIndex| :: sv.matchIndex[q] < |sv.log|)
    && (forall q | 0 <= q < |sv.nextIndex| :: sv.nextIndex[q] <= |sv.log|)
  }

  /** A log that is a snapshot of the term's leader's log, taken while in office. */
  ghost predicate Snapshot(log: Log, t: nat, reigns: map<nat, Reign>) {
    t in reigns && log <= reigns[t].log && |log| >= reigns[t].base
  }

  ghost predicate SyncOk(sv: Server, synced: nat, reigns: map<nat, Reign>) {
    && synced <= sv.currentTerm
    && (synced > 0 && synced == sv.currentTerm ==> Snapshot(sv.log, synced, reigns))
  }

  ghost predicate ServerOk(sv: Server, synced: nat, reigns: map<nat, Reign>) {
    && Backed(sv.log, reigns)
    && (forall i | 0 <= i < |sv.log| :: sv.log[i].term <= sv.currentTerm)
    && (sv.role == Leader ==> LeaderOk(sv, reigns) && synced == sv.currentTerm)
    && SyncOk(sv, synced, reigns)
  }

  ghost predicate RequestOk(m: Request, n: nat, reigns: map<nat, Reign>) {
    && m.dst < n && m.args.leaderId < n
    && Snapshot(m.sentLog, m.args.term, reigns)
    && m.args.prevLogIndex < |m.sentLog| && m.args.prevLogTerm == m.sentLog[m.args.prevLogIndex].term
    && m.sentLog[..m.args.prevLogIndex + 1] + m.args.entries == m.sentLog
    && m.args.leaderCommit < |m.sentLog|
  }

  /** Server q has left the term, or still stores at least k slots of the log of
      the term's leader. */
  ghost predicate Holds(sv: Server, synced: nat, t: nat, k: nat) {
    sv.currentTerm > t || (sv.currentTerm == t && synced == t && |sv.log| >= k)
  }

  ghost predicate ResponseOk(r: Response, c: Cluster)
    requires Shape(c)
  {
    && r.peer < |c.servers| && r.args.leaderId < |c.servers| && r.args.term in c.reigns && r.args.term >= 1
    && r.reply.nexIndex <= |c.reigns[r.args.term].log|
    && (r.reply.success ==>
          r.reply.nexIndex >= 1 && Holds(c.servers[r.peer], c.synced[r.peer], r.args.term, r.reply.nexIndex))
  }

  /** What a leader believes about a peer is so. */
  ghost predicate MatchOk(c: Cluster, p: nat, q: nat)
    requires Shape(c) && p < |c.servers| && q < |c.servers|
  {
    c.servers[p].role == Leader && q != p && c.servers[p].matchIndex[q] > 0 ==>
      Holds(c.servers[q], c.synced[q], c.servers[p].currentTerm, c.servers[p].matchIndex[q] + 1)
  }

  ghost predicate Inv(c: Cluster) {
    && Shape(c)
    && ReignsOk(|c.servers|, c.reigns)
    && (forall p | 0 <= p < |c.servers| :: ServerOk(c.servers[p], c.synced[p], c.reigns))
    && (forall m | m in c.requests :: RequestOk(m, |c.servers|, c.reigns))
    && (forall r | r in c.responses :: ResponseOk(r, c))
    && (forall p, q | 0 <= p < |c.servers| && 0 <= q < |c.servers| :: MatchOk(c, p, q))
  }

  // --------------------------------------------------- framing of one step

  /** Reigns only grow, and only at terms led by p. */
  ghost predicate Extends(before: map<nat, Reign>, after: map<nat, Reign>, p: nat) {
    forall t | t in before ::
      && t in after && after[t].id == before[t].id && after[t].base == before[t].base
      && before[t].log <= after[t].log
      && (before[t].id != p ==> after[t] == before[t])
  }

  /** A server moves on to a later term, or keeps what it stores in this one. */
  ghost predicate Progress(prior: Server, priorSynced: nat, sv: Server, synced: nat) {
    || sv.currentTerm > prior.currentTerm
    || (sv.currentTerm == prior.currentTerm
        && (priorSynced == prior.currentTerm && prior.currentTerm > 0 ==> synced == priorSynced && prior.log <= sv.log))
  }

  lemma BackedExtends(log: Log, before: map<nat, Reign>, after: map<nat, Reign>, p: nat)
    requires Backed(log, before) && Extends(before, after, p)
    ensures Backed(log, after)
  {
    forall i | 1 <= i < |log|
      ensures log[i].term in after && i < |after[log[i].term].log|
      ensures log[..i + 1] == after[log[i].term].log[..i + 1]
    {
      var t := log[i].term;
      assert before[t].log[..i + 1] == after[t].log[..i + 1];
    }
  }

  lemma SnapshotExtends(log: Log, t: nat, before: map<nat, Reign>, after: map<nat, Reign>, p: nat)
    requires Snapshot(log, t, before) && Extends(before, after, p)
    ensures Snapshot(log, t, after)
  {
    PrefixTransitive(log, before[t].log, after[t].log);
  }

  lemma PrefixTransitive(a: Log, b: Log, c: Log)
    requires a <= b && b <= c
    ensures a <= c
  {
    assert forall i | 0 <= i < |a| :: a[i] == b[i] == c[i];
  }

  lemma OtherServerKept(sv: Server, synced: nat, before: map<nat, Reign>, after: map<nat, Reign>, p: nat)
    requires ServerOk(sv, synced, before) && Extends(before, after, p) && sv.me != p
    ensures ServerOk(sv, synced, after)
  {
    BackedExtends(sv.log, before, after, p);
    if synced > 0 && synced == sv.currentTerm {
      SnapshotExtends(sv.log, synced, before, after, p);
    }
  }

  lemma RequestKept(m: Request, n: nat, before: map<nat, Reign>, after: map<nat, Reign>, p: nat)
    requires RequestOk(m, n, before) && Extends(before, after, p)
    ensures RequestOk(m, n, after)
  {
    SnapshotExtends(m.sentLog, m.args.term, before, after, p);
  }

  /** Everything a step must show about the one server it changes. */
  ghost predicate LocalStep(c: Cluster, p: nat, sv: Server, synced: nat, reigns: map<nat, Reign>)
    requires Shape(c) && p < |c.servers|
  {
    && sv.WellFormed() && sv.me == p && |sv.nextIndex| == |c.servers|
    && Extends(c.reigns, reigns, p)
    && ReignsOk(|c.servers|, reigns)
    && ServerOk(sv, synced, reigns)
    && Progress(c.servers[p], c.synced[p], sv, synced)
    && (forall q | 0 <= q < |c.servers| && q != p :: BelievesOk(c, sv, q))
  }

  ghost predicate BelievesOk(c: Cluster, sv: Server, q: nat)
    requires Shape(c) && q < |c.servers| && |sv.matchIndex| == |c.servers|
  {
    sv.role == Leader && sv.matchIndex[q] > 0 ==>
      Holds(c.servers[q], c.synced[q], sv.currentTerm, sv.matchIndex[q] + 1)
  }

  lemma HoldsKept(c: Cluster, p: nat, sv: Server, synced: nat, q: nat, t: nat, k: nat)
    requires Shape(c) && p < |c.servers| && q < |c.servers| && t >= 1
    requires Progress(c.servers[p], c.synced[p], sv, synced)
    requires Holds(c.servers[q], c.synced[q], t, k)
    ensures q == p ==> Holds(sv, synced, t, k)
  {
  }

  /** One changed server is enough: the rest of the invariant follows. */
  lemma LocalStepKeepsInv(c: Cluster, p: nat, sv: Server, synced: nat, reigns: map<nat, Reign>)
    requires Inv(c) && p < |c.servers|
    requires LocalStep(c, p, sv, synced, reigns)
    ensures Inv(Replace(c, p, sv, synced, reigns))
  {
    var c' := Replace(c, p, sv, synced, reigns);
    assert Shape(c');
    forall q | 0 <= q < |c'.servers| ensures ServerOk(c'.servers[q], c'.synced[q], c'.reigns) {
      if q != p {
        OtherServerKept(c.servers[q], c.synced[q], c.reigns, reigns, p);
      }
    }
    forall m | m in c'.requests ensures RequestOk(m, |c'.servers|, c'.reigns) {
      RequestKept(m, |c.servers|, c.reigns, reigns, p);
    }
    forall r | r in c'.responses ensures ResponseOk(r, c') {
      assert ResponseOk(r, c);
      if r.reply.success {
        HoldsKept(c, p, sv, synced, r.peer, r.args.term, r.reply.nexIndex);
      }
    }
    forall a, b | 0 <= a < |c'.servers| && 0 <= b < |c'.servers| ensures MatchOk(c', a, b) {
      MatchKept(c, p, sv, synced, reigns, a, b);
    }
  }

  lemma MatchKept(c: Cluster, p: nat, sv: Server, synced: nat, reigns: map<nat, Reign>, a: nat, b: nat)
    requires Inv(c) && p < |c.servers| && a < |c.servers| && b < |c.servers|
    requires LocalStep(c, p, sv, synced, reigns)
    ensures Shape(Replace(c, p, sv, synced, reigns))
    ensures MatchOk(Replace(c, p, sv, synced, reigns), a, b)
  {
    if a == p {
      if b != p {
        assert BelievesOk(c, sv, b);
      }
    } else if c.servers[a].role == Leader && a != b && c.servers[a].matchIndex[b] > 0 {
      assert MatchOk(c, a, b);
      assert ReignOk(c.servers[a].currentTerm, c.reigns[c.servers[a].currentTerm], |c.servers|, c.reigns);
      HoldsKept(c, p, sv, synced, b, c.servers[a].currentTerm, c.servers[a].matchIndex[b] + 1);
    }
  }
}
