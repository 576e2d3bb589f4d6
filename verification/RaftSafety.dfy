/** What every run of the cluster keeps, and what follows from it. */
module RaftSafety {
  import opened Basics
  import opened RaftState
  import opened RaftNode
  import opened RaftProtocol

  // ------------------------------------------------- the invariant, by step

  /** Same term at the same index, same prefix: for any two backed logs. */
  lemma BackedLogsMatch(a: Log, b: Log, reigns: map<nat, Reign>, i: nat)
    requires Backed(a, reigns) && Backed(b, reigns)
    requires 1 <= i < |a| && i < |b| && a[i].term == b[i].term
    ensures a[..i + 1] == b[..i + 1]
  {
  }

  lemma ReignsExtend(n: nat, before: map<nat, Reign>, after: map<nat, Reign>, p: nat, changed: nat)
    requires ReignsOk(n, before) && Extends(before, after, p)
    requires forall t | t in after && t != changed :: t in before && after[t] == before[t]
    requires changed in after ==> ReignOk(changed, after[changed], n, after)
    ensures ReignsOk(n, after)
  {
    forall t | t in after ensures ReignOk(t, after[t], n, after) {
      if t != changed {
        assert ReignOk(t, before[t], n, before);
        BackedExtends(before[t].log, before, after, p);
      }
    }
  }

  lemma ElectLocal(c: Cluster, p: nat, term: nat, own: nat)
    requires Inv(c) && Enabled(c, Elect(p, term, own))
    ensures Inv(Next(c, Elect(p, term, own)))
  {
    var sv := c.servers[p];
    var reigns := c.reigns[term := Reign(p, |sv.log|, sv.log)];
    assert ServerOk(sv, c.synced[p], c.reigns);
    ElectReigns(c, p, term, own);
    assert Snapshot(sv.log, term, reigns);
    LocalStepKeepsInv(c, p, InOffice(sv, term, own), term, reigns);
  }

  lemma ElectReigns(c: Cluster, p: nat, term: nat, own: nat)
    requires Inv(c) && Enabled(c, Elect(p, term, own))
    ensures var reigns := c.reigns[term := Reign(p, |c.servers[p].log|, c.servers[p].log)];
            Backed(c.servers[p].log, reigns) && ReignsOk(|c.servers|, reigns)
  {
    var sv := c.servers[p];
    var reign := Reign(p, |sv.log|, sv.log);
    var reigns := c.reigns[term := reign];
    assert ServerOk(sv, c.synced[p], c.reigns);
    BackedExtends(sv.log, c.reigns, reigns, p);
    assert ReignOk(term, reign, |c.servers|, reigns);
    ReignsExtend(|c.servers|, c.reigns, reigns, p, term);
  }

  lemma ChangeRoleLocal(c: Cluster, p: nat, term: nat, role: Role)
    requires Inv(c) && Enabled(c, ChangeRole(p, term, role))
    ensures Inv(Next(c, ChangeRole(p, term, role)))
  {
    var sv := c.servers[p].(currentTerm := term, role := role);
    assert ServerOk(c.servers[p], c.synced[p], c.reigns);
    LocalStepKeepsInv(c, p, sv, c.synced[p], c.reigns);
  }

  lemma AppendedBacked(log: Log, e: Entry, before: map<nat, Reign>, after: map<nat, Reign>, p: nat)
    requires |log| >= 1 && Backed(log, before) && Extends(before, after, p)
    requires e.term in after && after[e.term].log == log + [e]
    ensures Backed(log + [e], after)
  {
    BackedExtends(log, before, after, p);
    var longer := log + [e];
    forall i | 1 <= i < |longer|
      ensures longer[i].term in after && i < |after[longer[i].term].log|
      ensures longer[..i + 1] == after[longer[i].term].log[..i + 1]
    {
      if i < |log| {
        assert longer[i] == log[i] && longer[..i + 1] == log[..i + 1];
      }
    }
  }

  lemma StartLocal(c: Cluster, p: nat, command: Command, own: nat)
    requires Inv(c) && Enabled(c, Start(p, command, own))
    ensures Inv(Next(c, Start(p, command, own)))
  {
    var prior := c.servers[p];
    assert ServerOk(prior, c.synced[p], c.reigns);
    var t := prior.currentTerm;
    var sv := Appended(prior, command, own);
    var reigns := c.reigns[t := c.reigns[t].(log := sv.log)];
    assert prior.log <= sv.log;
    assert Extends(c.reigns, reigns, p);
    AppendedReign(c, p, command, reigns);
    StartSync(prior, sv, c.synced[p], c.reigns, reigns);
    forall q | 0 <= q < |c.servers| && q != p ensures BelievesOk(c, sv, q) {
      assert MatchOk(c, p, q);
    }
    LocalStepKeepsInv(c, p, sv, c.synced[p], reigns);
  }

  lemma AppendedReign(c: Cluster, p: nat, command: Command, reigns: map<nat, Reign>)
    requires Inv(c) && p < |c.servers| && c.servers[p].role == Leader
    requires var t := c.servers[p].currentTerm;
             t in c.reigns && reigns == c.reigns[t := c.reigns[t].(log := c.servers[p].log + [Entry(t, command)])]
    requires Extends(c.reigns, reigns, p)
    ensures Backed(c.servers[p].log + [Entry(c.servers[p].currentTerm, command)], reigns)
    ensures ReignsOk(|c.servers|, reigns)
  {
    var t := c.servers[p].currentTerm;
    assert ServerOk(c.servers[p], c.synced[p], c.reigns);
    AppendedBacked(c.servers[p].log, Entry(t, command), c.reigns, reigns, p);
    assert ReignOk(t, c.reigns[t], |c.servers|, c.reigns);
    ReignsExtend(|c.servers|, c.reigns, reigns, p, t);
  }

  lemma StartSync(prior: Server, sv: Server, synced: nat, before: map<nat, Reign>, after: map<nat, Reign>)
    requires prior.role == Leader && ServerOk(prior, synced, before)
    requires sv.currentTerm == prior.currentTerm
    requires prior.log <= sv.log && sv.currentTerm in before
    requires after == before[sv.currentTerm := before[sv.currentTerm].(log := sv.log)]
    ensures SyncOk(sv, synced, after)
  {
    PrefixTransitive(prior.log, sv.log, sv.log);
  }

  lemma SendLocal(c: Cluster, p: nat, peer: nat)
    requires Inv(c) && Enabled(c, Send(p, peer))
    ensures Inv(Next(c, Send(p, peer)))
  {
    var sv := c.servers[p];
    assert ServerOk(sv, c.synced[p], c.reigns);
    var m := Request(peer, MakeAppendEntriesArgs(sv, peer), sv.log);
    var c' := Next(c, Send(p, peer));
    assert Snapshot(sv.log, sv.currentTerm, c.reigns) by {
      assert ReignOk(sv.currentTerm, c.reigns[sv.currentTerm], |c.servers|, c.reigns);
    }
    assert RequestOk(m, |c.servers|, c.reigns);
    forall r | r in c'.responses ensures ResponseOk(r, c') {
      assert ResponseOk(r, c);
    }
    forall a, b | 0 <= a < |c'.servers| && 0 <= b < |c'.servers| ensures MatchOk(c', a, b) {
      assert MatchOk(c, a, b);
    }
  }

  /** Where a message fits, the follower's log agrees with the sender's. */
  lemma FittingPrefix(c: Cluster, m: Request)
    requires Inv(c) && m in c.requests && m.dst < |c.servers|
    ensures var log, prev := c.servers[m.dst].log, m.args.prevLogIndex;
            prev < |log| && PrevMatches(log, m.args) ==> prev < |m.sentLog| && log[..prev + 1] == m.sentLog[..prev + 1]
  {
    var log, prev := c.servers[m.dst].log, m.args.prevLogIndex;
    assert RequestOk(m, |c.servers|, c.reigns);
    assert ServerOk(c.servers[m.dst], c.synced[m.dst], c.reigns);
    assert ReignOk(m.args.term, c.reigns[m.args.term], |c.servers|, c.reigns);
    if prev < |log| && PrevMatches(log, m.args) {
      SharedPrefix(log, m.sentLog, c.reigns[m.args.term].log, c.reigns, prev);
    }
  }

  /** An accepted message leaves the follower with exactly the log the leader
      had when it sent the message. */
  lemma AcceptedIsSentLog(c: Cluster, m: Request)
    requires Inv(c) && m in c.requests && m.dst < |c.servers|
    ensures var h := HandleAppendEntries(c.servers[m.dst], m.args);
            h.reply.success ==> h.server.log == m.sentLog && h.server.currentTerm == m.args.term
  {
    assert RequestOk(m, |c.servers|, c.reigns);
    FittingPrefix(c, m);
    AcceptedLog(c.servers[m.dst], m.args, m.sentLog);
  }

  lemma AcceptedLog(sv: Server, args: AppendEntriesArgs, sent: Log)
    requires sv.WellFormed() && args.prevLogIndex < |sent| && sent[..args.prevLogIndex + 1] + args.entries == sent
    requires args.prevLogIndex < |sv.log| && PrevMatches(sv.log, args) ==>
               sv.log[..args.prevLogIndex + 1] == sent[..args.prevLogIndex + 1]
    ensures var h := HandleAppendEntries(sv, args);
            h.reply.success ==> h.server.log == sent && h.server.currentTerm == args.term
  {
  }

  lemma SharedPrefix(log: Log, sent: Log, leaderLog: Log, reigns: map<nat, Reign>, prev: nat)
    requires Backed(log, reigns) && Backed(leaderLog, reigns) && sent <= leaderLog
    requires prev < |log| && prev < |sent| && log[0] == leaderLog[0]
    requires prev == 0 || log[prev].term == sent[prev].term
    ensures log[..prev + 1] == sent[..prev + 1]
  {
    assert sent[..prev + 1] == leaderLog[..prev + 1];
    if prev > 0 {
      BackedLogsMatch(log, leaderLog, reigns, prev);
    }
  }

  /** Within a term, an accepted message never shortens or rewrites what an
      earlier one of the term left: shorter stale messages are refused. */
  lemma AcceptedExtends(c: Cluster, m: Request)
    requires Inv(c) && m in c.requests && m.dst < |c.servers|
    requires c.servers[m.dst].currentTerm == m.args.term == c.synced[m.dst]
    ensures var h := HandleAppendEntries(c.servers[m.dst], m.args);
            h.reply.success ==> c.servers[m.dst].log <= h.server.log
  {
    var sv := c.servers[m.dst];
    var h := HandleAppendEntries(sv, m.args);
    var t := m.args.term;
    assert RequestOk(m, |c.servers|, c.reigns);
    assert ReignOk(t, c.reigns[t], |c.servers|, c.reigns);
    if h.reply.success {
      AcceptedIsSentLog(c, m);
      assert ServerOk(sv, c.synced[m.dst], c.reigns);
      var last := |sv.log| - 1;
      assert sv.log[last] == c.reigns[t].log[last];
      assert |sv.log| <= |m.sentLog|;
      assert forall i | 0 <= i < |sv.log| :: sv.log[i] == c.reigns[t].log[i] == m.sentLog[i];
    }
  }

  lemma DeliverCommit(c: Cluster, m: Request)
    requires Inv(c) && m in c.requests && m.dst < |c.servers|
    ensures var sv := c.servers[m.dst];
            var h := HandleAppendEntries(sv, m.args);
            h.server.commitIndex > sv.commitIndex ==>
              && h.server.commitIndex < |h.server.log| && m.args.term in c.reigns
              && h.server.log[..h.server.commitIndex + 1] <= c.reigns[m.args.term].log
  {
    var sv := c.servers[m.dst];
    var h := HandleAppendEntries(sv, m.args);
    assert RequestOk(m, |c.servers|, c.reigns);
    if h.server.commitIndex > sv.commitIndex {
      AcceptedIsSentLog(c, m);
      PrefixTransitive(h.server.log[..h.server.commitIndex + 1], h.server.log, c.reigns[m.args.term].log);
    }
  }

  lemma DeliverSync(c: Cluster, m: Request)
    requires Inv(c) && m in c.requests && m.dst < |c.servers|
    ensures var sv := c.servers[m.dst];
            var h := HandleAppendEntries(sv, m.args);
            SyncOk(h.server, if h.reply.success then m.args.term else c.synced[m.dst], c.reigns)
  {
    var sv := c.servers[m.dst];
    var h := HandleAppendEntries(sv, m.args);
    assert RequestOk(m, |c.servers|, c.reigns);
    assert ServerOk(sv, c.synced[m.dst], c.reigns);
    assert ReignOk(m.args.term, c.reigns[m.args.term], |c.servers|, c.reigns);
    if h.reply.success {
      AcceptedIsSentLog(c, m);
    }
  }

  lemma DeliverProgress(c: Cluster, m: Request)
    requires Inv(c) && m in c.requests && m.dst < |c.servers|
    ensures var sv := c.servers[m.dst];
            var h := HandleAppendEntries(sv, m.args);
            Progress(sv, c.synced[m.dst], h.server, if h.reply.success then m.args.term else c.synced[m.dst])
  {
    var sv := c.servers[m.dst];
    var h := HandleAppendEntries(sv, m.args);
    assert ServerOk(sv, c.synced[m.dst], c.reigns);
    if h.reply.success && sv.currentTerm == m.args.term == c.synced[m.dst] {
      AcceptedExtends(c, m);
    }
  }

  lemma DeliverBacked(c: Cluster, m: Request)
    requires Inv(c) && m in c.requests && m.dst < |c.servers|
    ensures var h := HandleAppendEntries(c.servers[m.dst], m.args);
            && Backed(h.server.log, c.reigns)
            && forall i | 0 <= i < |h.server.log| :: h.server.log[i].term <= h.server.currentTerm
  {
    var sv := c.servers[m.dst];
    var h := HandleAppendEntries(sv, m.args);
    assert ServerOk(sv, c.synced[m.dst], c.reigns);
    if h.reply.success {
      AcceptedIsSentLog(c, m);
      assert RequestOk(m, |c.servers|, c.reigns);
      var reign := c.reigns[m.args.term];
      assert ReignOk(m.args.term, reign, |c.servers|, c.reigns);
      forall i | 1 <= i < |m.sentLog|
        ensures m.sentLog[i].term in c.reigns && i < |c.reigns[m.sentLog[i].term].log|
        ensures m.sentLog[..i + 1] == c.reigns[m.sentLog[i].term].log[..i + 1]
      {
        assert m.sentLog[i] == reign.log[i] && m.sentLog[..i + 1] == reign.log[..i + 1];
      }
      forall i | 0 <= i < |m.sentLog| ensures m.sentLog[i].term <= m.args.term {
        assert m.sentLog[i] == reign.log[i];
      }
    }
  }

  /** The follower's history after the message. */
  function DeliveredSync(c: Cluster, m: Request): nat
    requires Shape(c) && m.dst < |c.servers|
  {
    var h := HandleAppendEntries(c.servers[m.dst], m.args);
    if h.reply.success then m.args.term else c.synced[m.dst]
  }

  lemma DeliverLocalStep(c: Cluster, m: Request)
    requires Inv(c) && Enabled(c, Deliver(m))
    ensures LocalStep(c, m.dst, HandleAppendEntries(c.servers[m.dst], m.args).server, DeliveredSync(c, m), c.reigns)
  {
    var p := m.dst;
    var h := HandleAppendEntries(c.servers[p], m.args);
    assert ServerOk(c.servers[p], c.synced[p], c.reigns);
    assert RequestOk(m, |c.servers|, c.reigns);
    DeliverSync(c, m);
    DeliverBacked(c, m);
    forall q | 0 <= q < |c.servers| && q != p ensures BelievesOk(c, h.server, q) {
      assert MatchOk(c, p, q);
    }
  }

  lemma DeliverResponse(c: Cluster, m: Request)
    requires Inv(c) && Enabled(c, Deliver(m))
    ensures var h := HandleAppendEntries(c.servers[m.dst], m.args);
            var c' := Replace(c, m.dst, h.server, DeliveredSync(c, m), c.reigns);
            Shape(c') && ResponseOk(Response(m.dst, m.args, h.reply), c')
  {
    var h := HandleAppendEntries(c.servers[m.dst], m.args);
    assert RequestOk(m, |c.servers|, c.reigns);
    assert ReignOk(m.args.term, c.reigns[m.args.term], |c.servers|, c.reigns);
    if h.reply.success {
      AcceptedIsSentLog(c, m);
    }
  }

  lemma DeliverLocal(c: Cluster, m: Request)
    requires Inv(c) && Enabled(c, Deliver(m))
    ensures Inv(Next(c, Deliver(m)))
  {
    var h := HandleAppendEntries(c.servers[m.dst], m.args);
    var synced := DeliveredSync(c, m);
    DeliverLocalStep(c, m);
    DeliverResponse(c, m);
    LocalStepKeepsInv(c, m.dst, h.server, synced, c.reigns);
    AddResponse(Replace(c, m.dst, h.server, synced, c.reigns), Response(m.dst, m.args, h.reply));
  }

  lemma AddResponse(c: Cluster, r: Response)
    requires Inv(c) && ResponseOk(r, c)
    ensures Inv(c.(responses := c.responses + {r}))
  {
    var c' := c.(responses := c.responses + {r});
    forall x | x in c'.responses ensures ResponseOk(x, c') {
      assert ResponseOk(x, c);
    }
    forall a, b | 0 <= a < |c'.servers| && 0 <= b < |c'.servers| ensures MatchOk(c', a, b) {
      assert MatchOk(c, a, b);
    }
  }

  /** The leader's view after a successful reply: inside its log, and true. */
  lemma ReceiveMatch(c: Cluster, r: Response)
    requires Inv(c) && Enabled(c, Receive(r))
    ensures var sv := HandleReply(c.servers[r.args.leaderId], r.peer, r.args, r.reply);
            && |sv.matchIndex| == |c.servers|
            && (sv.role == Leader ==>
                  && sv.currentTerm == c.servers[r.args.leaderId].currentTerm
                  && (forall q | 0 <= q < |sv.matchIndex| :: sv.matchIndex[q] < |sv.log|)
                  && (forall q | 0 <= q < |sv.nextIndex| :: sv.nextIndex[q] <= |sv.log|)
                  && sv.commitIndex < |sv.log|)
            && forall q | 0 <= q < |c.servers| && q != r.args.leaderId :: BelievesOk(c, sv, q)
  {
    var p := r.args.leaderId;
    var prior := c.servers[p];
    var sv := HandleReply(prior, r.peer, r.args, r.reply);
    assert ServerOk(prior, c.synced[p], c.reigns);
    assert ResponseOk(r, c);
    if sv.role == Leader {
      forall q | 0 <= q < |c.servers| && q != p ensures BelievesOk(c, sv, q) {
        assert MatchOk(c, p, q);
      }
      assert forall q | 0 <= q < |sv.matchIndex| :: sv.matchIndex[q] < |sv.log|;
      ScanStaysInside(sv.matchIndex, prior.commitIndex, |sv.log|, |sv.log|);
    }
  }

  lemma ReceiveLocal(c: Cluster, r: Response)
    requires Inv(c) && Enabled(c, Receive(r))
    ensures Inv(Next(c, Receive(r)))
  {
    var p := r.args.leaderId;
    var prior := c.servers[p];
    var sv := HandleReply(prior, r.peer, r.args, r.reply);
    ReceiveMatch(c, r);
    ReceiveServer(c, r);
    LocalStepKeepsInv(c, p, sv, c.synced[p], c.reigns);
  }

  lemma ReceiveServer(c: Cluster, r: Response)
    requires Inv(c) && Enabled(c, Receive(r))
    ensures var p := r.args.leaderId;
            var sv := HandleReply(c.servers[p], r.peer, r.args, r.reply);
            ServerOk(sv, c.synced[p], c.reigns)
  {
    var prior := c.servers[r.args.leaderId];
    var sv := HandleReply(prior, r.peer, r.args, r.reply);
    assert ServerOk(prior, c.synced[r.args.leaderId], c.reigns);
    ReceiveMatch(c, r);
    if sv.role == Leader {
      assert Snapshot(sv.log, sv.currentTerm, c.reigns);
    }
  }

  lemma CrashLocal(c: Cluster, p: nat)
    requires Inv(c) && Enabled(c, Crash(p))
    ensures Inv(Next(c, Crash(p)))
  {
    assert ServerOk(c.servers[p], c.synced[p], c.reigns);
    var sv := Restarted(p, |c.servers|, c.disks[p]);
    LocalStepKeepsInv(c, p, sv, c.synced[p], c.reigns);
  }

  lemma StepKeepsInv(c: Cluster, step: Step)
    requires Inv(c) && Enabled(c, step)
    ensures Inv(Next(c, step))
  {
    match step
    case Elect(p, term, own) => ElectLocal(c, p, term, own);
    case ChangeRole(p, term, role) => ChangeRoleLocal(c, p, term, role);
    case Start(p, command, own) => StartLocal(c, p, command, own);
    case Send(p, peer) => SendLocal(c, p, peer);
    case Deliver(m) => DeliverLocal(c, m);
    case Receive(r) => ReceiveLocal(c, r);
    case Crash(p) => CrashLocal(c, p);
  }

  // ------------------------------------------------------------- whole runs

  /** Every step of the run can be taken where it is taken. */
  ghost predicate ValidRun(c: Cluster, steps: seq<Step>)
    decreases |steps|
  {
    Shape(c) && (steps == [] || (Enabled(c, steps[0]) && ValidRun(Next(c, steps[0]), steps[1..])))
  }

  ghost function After(c: Cluster, steps: seq<Step>): (r: Cluster)
    requires ValidRun(c, steps)
    ensures Shape(r) && |r.servers| == |c.servers|
    decreases |steps|
  {
    if steps == [] then c else After(Next(c, steps[0]), steps[1..])
  }

  lemma InitInv(n: nat)
    ensures Inv(Init(n))
  {
  }

  lemma {:induction false} RunKeepsInv(c: Cluster, steps: seq<Step>)
    requires Inv(c) && ValidRun(c, steps)
    ensures Inv(After(c, steps))
    decreases |steps|
  {
    if steps != [] {
      StepKeepsInv(c, steps[0]);
      RunKeepsInv(Next(c, steps[0]), steps[1..]);
    }
  }

  /** The states any run from the start of a cluster of n servers can reach. */
  ghost predicate Reachable(n: nat, c: Cluster) {
    exists steps: seq<Step> :: ValidRun(Init(n), steps) && After(Init(n), steps) == c
  }

  lemma ReachableInv(n: nat, c: Cluster)
    requires Reachable(n, c)
    ensures Inv(c) && |c.servers| == n
  {
    var steps :| ValidRun(Init(n), steps) && After(Init(n), steps) == c;
    InitInv(n);
    RunKeepsInv(Init(n), steps);
  }

  // -------------------------------------------------------------- log matching

  /** A log present anywhere: on a server, on its disk, conveyed by a message
      still in flight, or kept by a term's leader. */
  ghost predicate Present(c: Cluster, log: Log) {
    || (exists p :: 0 <= p < |c.servers| == |c.disks| && (c.servers[p].log == log || c.disks[p].log == log))
    || (exists m :: m in c.requests && m.sentLog == log)
    || (exists t :: t in c.reigns && c.reigns[t].log == log)
  }

  lemma PresentBacked(c: Cluster, log: Log)
    requires Inv(c) && Present(c, log)
    ensures |log| >= 1 && log[0] == SENTINEL && Backed(log, c.reigns)
  {
    if p :| 0 <= p < |c.servers| == |c.disks| && (c.servers[p].log == log || c.disks[p].log == log) {
      assert ServerOk(c.servers[p], c.synced[p], c.reigns);
    } else if m :| m in c.requests && m.sentLog == log {
      assert RequestOk(m, |c.servers|, c.reigns);
      var reign := c.reigns[m.args.term];
      assert ReignOk(m.args.term, reign, |c.servers|, c.reigns);
      PrefixBacked(log, reign.log, c.reigns);
    } else {
      var t :| t in c.reigns && c.reigns[t].log == log;
      assert ReignOk(t, c.reigns[t], |c.servers|, c.reigns);
    }
  }

  lemma PrefixBacked(log: Log, longer: Log, reigns: map<nat, Reign>)
    requires log <= longer && Backed(longer, reigns)
    ensures Backed(log, reigns)
  {
    forall i | 1 <= i < |log|
      ensures log[i].term in reigns && i < |reigns[log[i].term].log|
      ensures log[..i + 1] == reigns[log[i].term].log[..i + 1]
    {
      assert log[i] == longer[i] && log[..i + 1] == longer[..i + 1];
    }
  }

  /** Log Matching (section 5.3 of the extended Raft paper) in every reachable
      state, messages in flight included. */
  lemma LogMatching(n: nat, c: Cluster, a: Log, b: Log, i: nat)
    requires Reachable(n, c)
    requires Present(c, a) && Present(c, b)
    requires i < |a| && i < |b| && a[i].term == b[i].term
    ensures a[..i + 1] == b[..i + 1]
  {
    ReachableInv(n, c);
    PresentBacked(c, a);
    PresentBacked(c, b);
    MatchFrom(a, b, c.reigns, i);
  }

  lemma MatchFrom(a: Log, b: Log, reigns: map<nat, Reign>, i: nat)
    requires Backed(a, reigns) && Backed(b, reigns)
    requires i < |a| && i < |b| && a[i].term == b[i].term && a[0] == b[0]
    ensures a[..i + 1] == b[..i + 1]
  {
    if i == 0 {
      assert a[..1] == b[..1];
    } else {
      BackedLogsMatch(a, b, reigns, i);
    }
  }

  /** In every reachable state, whichever message is delivered next and however
      late: accepted, it makes the follower's log, and its disk, the leader's
      log at the time of sending. */
  lemma AcceptanceCopiesLeader(n: nat, c: Cluster, m: Request)
    requires Reachable(n, c) && Shape(c) && Enabled(c, Deliver(m))
    requires HandleAppendEntries(c.servers[m.dst], m.args).reply.success
    ensures var c' := Next(c, Deliver(m));
            c'.servers[m.dst].log == c'.disks[m.dst].log == m.sentLog
  {
    ReachableInv(n, c);
    AcceptedIsSentLog(c, m);
  }

  // ---------------------------------------------------- no regression in a term

  lemma StepProgress(c: Cluster, step: Step, p: nat)
    requires Inv(c) && Enabled(c, step) && p < |c.servers|
    ensures var c' := Next(c, step); Progress(c.servers[p], c.synced[p], c'.servers[p], c'.synced[p])
  {
    match step
    case Deliver(m) =>
      if m.dst == p {
        DeliverProgress(c, m);
      }
    case Receive(r) =>
      if r.args.leaderId == p {
        ReceiveProgress(c, r);
      }
    case Elect(q, term, own) =>
      assert ServerOk(c.servers[p], c.synced[p], c.reigns);
    case _ =>
  }

  lemma ReceiveProgress(c: Cluster, r: Response)
    requires Inv(c) && Enabled(c, Receive(r))
    ensures var p := r.args.leaderId;
            var sv := HandleReply(c.servers[p], r.peer, r.args, r.reply);
            Progress(c.servers[p], c.synced[p], sv, c.synced[p])
  {
  }

  lemma {:induction false} RunProgress(c: Cluster, steps: seq<Step>, p: nat)
    requires Inv(c) && ValidRun(c, steps) && p < |c.servers|
    ensures Progress(c.servers[p], c.synced[p], After(c, steps).servers[p], After(c, steps).synced[p])
    decreases |steps|
  {
    if steps == [] {
    } else {
      var next := Next(c, steps[0]);
      StepKeepsInv(c, steps[0]);
      StepProgress(c, steps[0], p);
      RunProgress(next, steps[1..], p);
      var end := After(next, steps[1..]);
      if end.servers[p].currentTerm == next.servers[p].currentTerm == c.servers[p].currentTerm
         && c.synced[p] == c.servers[p].currentTerm > 0 {
        PrefixTransitive(c.servers[p].log, next.servers[p].log, end.servers[p].log);
      }
    }
  }

  /** Once a server has accepted from the leader of a term, then for as long as
      it stays in that term its log only grows, and is always a snapshot of that
      leader's log: through stale, repeated and reordered messages, and through
      crashes and restarts. */
  lemma NoRegressionWithinTerm(n: nat, c: Cluster, steps: seq<Step>, p: nat)
    requires Reachable(n, c) && ValidRun(c, steps) && p < |c.servers|
    requires c.synced[p] == c.servers[p].currentTerm > 0
    requires After(c, steps).servers[p].currentTerm == c.servers[p].currentTerm
    ensures var c' := After(c, steps);
            && c.servers[p].log <= c'.servers[p].log == c'.disks[p].log
            && Snapshot(c'.servers[p].log, c.servers[p].currentTerm, c'.reigns)
  {
    ReachableInv(n, c);
    RunProgress(c, steps, p);
    RunKeepsInv(c, steps);
    var c' := After(c, steps);
    assert ServerOk(c'.servers[p], c'.synced[p], c'.reigns);
  }

  // -------------------------------------------------------------- match index

  lemma HoldsMeansStored(c: Cluster, p: nat, q: nat, k: nat)
    requires Inv(c) && p < |c.servers| && q < |c.servers| && c.servers[p].role == Leader
    requires Holds(c.servers[q], c.synced[q], c.servers[p].currentTerm, k) && k <= |c.servers[p].log|
    ensures c.disks[q].term <= c.servers[p].currentTerm ==>
              k <= |c.disks[q].log| && c.disks[q].log[..k] == c.servers[p].log[..k]
  {
    assert ServerOk(c.servers[p], c.synced[p], c.reigns);
    assert ServerOk(c.servers[q], c.synced[q], c.reigns);
    assert ReignOk(c.servers[p].currentTerm, c.reigns[c.servers[p].currentTerm], |c.servers|, c.reigns);
    if c.disks[q].term <= c.servers[p].currentTerm {
      assert c.servers[q].log <= c.servers[p].log;
      assert c.servers[q].log[..k] == c.servers[p].log[..k];
    }
  }

  /** For a leader of term T in any reachable state: a match index never passes
      the leader's last index, and a peer that is in no later term than T has
      the leader's log up to its match index on disk, however often it crashed. */
  lemma MatchIndexSound(n: nat, c: Cluster, p: nat, q: nat)
    requires Reachable(n, c) && p < |c.servers| && q < |c.disks|
    requires c.servers[p].role == Leader && q < |c.servers[p].matchIndex|
    ensures var i := c.servers[p].matchIndex[q];
            && i < |c.servers[p].log|
            && (i > 0 && c.disks[q].term <= c.servers[p].currentTerm ==>
                  i < |c.disks[q].log| && c.disks[q].log[..i + 1] == c.servers[p].log[..i + 1])
  {
    ReachableInv(n, c);
    assert ServerOk(c.servers[p], c.synced[p], c.reigns);
    assert MatchOk(c, p, q);
    if q != p && c.servers[p].matchIndex[q] > 0 {
      HoldsMeansStored(c, p, q, c.servers[p].matchIndex[q] + 1);
    }
  }

  // ------------------------------------------------------------------- commit

  /** The commit index of p, just moved up, lies inside its log, and what it
      commits is a prefix of the log of its term's leader. */
  ghost predicate CommitsInside(c: Cluster, p: nat)
    requires Shape(c) && p < |c.servers|
  {
    var sv := c.servers[p];
    && sv.commitIndex < |sv.log|
    && sv.currentTerm in c.reigns && sv.log[..sv.commitIndex + 1] <= c.reigns[sv.currentTerm].log
  }

  lemma DeliverCommits(c: Cluster, m: Request)
    requires Inv(c) && Enabled(c, Deliver(m)) && Inv(Next(c, Deliver(m)))
    requires Next(c, Deliver(m)).servers[m.dst].commitIndex > c.servers[m.dst].commitIndex
    ensures CommitsInside(Next(c, Deliver(m)), m.dst)
  {
    var c' := Next(c, Deliver(m));
    DeliverCommit(c, m);
    assert RequestOk(m, |c.servers|, c.reigns);
    assert ReignOk(m.args.term, c.reigns[m.args.term], |c.servers|, c.reigns);
  }

  lemma ReceiveCommits(c: Cluster, r: Response)
    requires Inv(c) && Enabled(c, Receive(r)) && Inv(Next(c, Receive(r)))
    requires Next(c, Receive(r)).servers[r.args.leaderId].commitIndex > c.servers[r.args.leaderId].commitIndex
    ensures CommitsInside(Next(c, Receive(r)), r.args.leaderId)
  {
    var p := r.args.leaderId;
    var c' := Next(c, Receive(r));
    ReceiveMatch(c, r);
    assert ServerOk(c.servers[p], c.synced[p], c.reigns);
    assert ReignOk(c.servers[p].currentTerm, c.reigns[c.servers[p].currentTerm], |c.servers|, c.reigns);
    assert ServerOk(c'.servers[p], c'.synced[p], c'.reigns);
  }

  ghost predicate Stepped(c: Cluster, c': Cluster) {
    Shape(c) && exists step :: Enabled(c, step) && c' == Next(c, step)
  }

  /** The commit index of p moves up. */
  ghost predicate Raised(c: Cluster, c': Cluster, p: nat) {
    p < |c.servers| && p < |c'.servers| && c'.servers[p].commitIndex > c.servers[p].commitIndex
  }

  lemma RaiseCommitsInside(c: Cluster, c': Cluster, p: nat)
    requires Inv(c) && Stepped(c, c') && Raised(c, c', p)
    ensures Inv(c') && CommitsInside(c', p)
  {
    var step :| Enabled(c, step) && c' == Next(c, step);
    StepKeepsInv(c, step);
    if step.Deliver? {
      DeliverCommits(c, step.m);
    } else {
      ReceiveCommits(c, step.r);
    }
  }

  /** Without taking the minimum of Figure 2: whichever step of a run moves a
      commit index up, the new one lies inside that server's log. */
  lemma CommitStaysInside(n: nat, c: Cluster, c': Cluster, p: nat)
    requires Reachable(n, c) && Stepped(c, c') && Raised(c, c', p)
    ensures Shape(c') && CommitsInside(c', p)
  {
    ReachableInv(n, c);
    RaiseCommitsInside(c, c', p);
  }

  /** The states of a run, one after the other. */
  ghost predicate History(n: nat, states: seq<Cluster>) {
    && states != [] && states[0] == Init(n)
    && forall i | 0 <= i < |states| - 1 :: Stepped(states[i], states[i + 1])
  }

  lemma {:induction false} HistoryInv(n: nat, states: seq<Cluster>, i: nat)
    requires History(n, states) && i < |states|
    ensures Inv(states[i])
  {
    if i == 0 {
      InitInv(n);
    } else {
      HistoryInv(n, states, i - 1);
      assert Stepped(states[i - 1], states[i - 1 + 1]);
      var step :| Enabled(states[i - 1], step) && states[i] == Next(states[i - 1], step);
      StepKeepsInv(states[i - 1], step);
    }
  }

  lemma StepExtends(c: Cluster, c': Cluster, t: nat)
    requires Inv(c) && Stepped(c, c') && t in c.reigns
    ensures t in c'.reigns && c.reigns[t].log <= c'.reigns[t].log
  {
    var step :| Enabled(c, step) && c' == Next(c, step);
    if step.Start? {
      assert ServerOk(c.servers[step.p], c.synced[step.p], c.reigns);
    }
  }

  lemma HistoryStepExtends(n: nat, states: seq<Cluster>, i: nat, t: nat)
    requires History(n, states) && i < |states| - 1 && t in states[i].reigns
    ensures t in states[i + 1].reigns && states[i].reigns[t].log <= states[i + 1].reigns[t].log
  {
    HistoryInv(n, states, i);
    StepExtends(states[i], states[i + 1], t);
  }

  /** Over any run a term's leader only ever appends. */
  lemma {:induction false} HistoryExtends(n: nat, states: seq<Cluster>, i: nat, j: nat, t: nat)
    requires History(n, states) && i <= j < |states| && t in states[i].reigns
    ensures t in states[j].reigns && states[i].reigns[t].log <= states[j].reigns[t].log
    decreases j
  {
    if i < j {
      HistoryExtends(n, states, i, j - 1, t);
      HistoryStepExtends(n, states, j - 1, t);
      PrefixTransitive(states[i].reigns[t].log, states[j - 1].reigns[t].log, states[j].reigns[t].log);
    }
  }

  function Committed(sv: Server): Log {
    sv.log[..Min(sv.commitIndex + 1, |sv.log|)]
  }

  /** Commit agreement within a term: whatever two steps of a run commit under the
      leader of the same term, at whichever servers and whatever lies between them,
      is one a prefix of the other. */
  lemma CommitAgreement(n: nat, states: seq<Cluster>, i: nat, p: nat, j: nat, q: nat)
    requires History(n, states) && i <= j < |states| - 1
    requires Raised(states[i], states[i + 1], p) && Raised(states[j], states[j + 1], q)
    requires states[i + 1].servers[p].currentTerm == states[j + 1].servers[q].currentTerm
    ensures var x, y := Committed(states[i + 1].servers[p]), Committed(states[j + 1].servers[q]); x <= y || y <= x
  {
    var t := states[i + 1].servers[p].currentTerm;
    CommittedInHistory(n, states, i, p);
    CommittedInHistory(n, states, j, q);
    HistoryExtends(n, states, i + 1, j + 1, t);
    OnePrefixOfOther(Committed(states[i + 1].servers[p]), states[i + 1].reigns[t].log,
                     Committed(states[j + 1].servers[q]), states[j + 1].reigns[t].log);
  }

  lemma CommittedInHistory(n: nat, states: seq<Cluster>, i: nat, p: nat)
    requires History(n, states) && i < |states| - 1 && Raised(states[i], states[i + 1], p)
    ensures var sv := states[i + 1].servers[p];
            sv.currentTerm in states[i + 1].reigns && Committed(sv) <= states[i + 1].reigns[sv.currentTerm].log
  {
    HistoryInv(n, states, i);
    RaiseCommitsInside(states[i], states[i + 1], p);
  }

  lemma OnePrefixOfOther(x: Log, a: Log, y: Log, b: Log)
    requires x <= a <= b && y <= b
    ensures x <= y || y <= x
  {
    assert forall i | 0 <= i < |x| :: x[i] == a[i] == b[i];
  }

  /** Server q has the log of p up to index i on disk, or is in a later term. */
  ghost predicate StoredOrGone(c: Cluster, p: nat, q: nat, i: nat)
    requires Shape(c) && p < |c.servers| && q < |c.servers|
  {
    || c.disks[q].term > c.servers[p].currentTerm
    || (i < |c.disks[q].log| && i < |c.servers[p].log| && c.disks[q].log[..i + 1] == c.servers[p].log[..i + 1])
  }

  lemma QuorumStores(c: Cluster, p: nat, i: nat)
    requires Inv(c) && p < |c.servers| && c.servers[p].role == Leader && 0 < i < |c.servers[p].log|
    ensures forall q | q in HolderSet(c.servers[p].matchIndex, i) :: StoredOrGone(c, p, q, i)
  {
    forall q | q in HolderSet(c.servers[p].matchIndex, i) ensures StoredOrGone(c, p, q, i) {
      if q != p {
        assert MatchOk(c, p, q);
        HoldsMeansStored(c, p, q, i + 1);
      }
    }
  }

  /** When a leader moves its commit index up, a strict majority of the servers
      either has the leader's log up to it on disk or has moved to a later term. */
  lemma CommitNeedsMajority(n: nat, c: Cluster, r: Response)
    requires Reachable(n, c) && Shape(c) && Enabled(c, Receive(r))
    requires Next(c, Receive(r)).servers[r.args.leaderId].commitIndex > c.servers[r.args.leaderId].commitIndex
    ensures var c' := Next(c, Receive(r));
            var sv := c'.servers[r.args.leaderId];
            var quorum := HolderSet(sv.matchIndex, sv.commitIndex);
            && Shape(c') && |quorum| > n / 2
            && forall q | q in quorum :: q < n && StoredOrGone(c', r.args.leaderId, q, sv.commitIndex)
  {
    var p := r.args.leaderId;
    var c' := Next(c, Receive(r));
    var sv := c'.servers[p];
    ReachableInv(n, c);
    StepKeepsInv(c, Receive(r));
    ReceiveMatch(c, r);
    QuorumStores(c', p, sv.commitIndex);
    ScanFindsLargest(sv.matchIndex, c.servers[p].commitIndex, |sv.log|);
    HoldersCountsHolderSet(sv.matchIndex, sv.commitIndex);
  }
}
