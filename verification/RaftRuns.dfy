/** Building blocks for runs of the cluster with a given outcome. */
module RaftRuns {
  import opened RaftState
  import opened RaftNode
  import opened RaftProtocol
  import opened RaftSafety
  import opened RaftBackoff

  lemma {:induction false} OneMore(c: Cluster, steps: seq<Step>, step: Step)
    requires ValidRun(c, steps) && Shape(After(c, steps)) && Enabled(After(c, steps), step)
    requires Shape(Next(After(c, steps), step))
    ensures ValidRun(c, steps + [step]) && After(c, steps + [step]) == Next(After(c, steps), step)
    decreases |steps|
  {
    if steps == [] {
      assert [step][1..] == [];
    } else {
      OneMore(Next(c, steps[0]), steps[1..], step);
      assert (steps + [step])[1..] == steps[1..] + [step];
    }
  }

  lemma ReachNext(n: nat, c: Cluster, step: Step)
    requires Reachable(n, c) && Shape(c) && Enabled(c, step)
    ensures Reachable(n, Next(c, step)) && Shape(Next(c, step))
  {
    ReachableInv(n, c);
    StepKeepsInv(c, step);
    var steps :| ValidRun(Init(n), steps) && After(Init(n), steps) == c;
    OneMore(Init(n), steps, step);
  }

  /** A message sent and handled; the reply is on its way. */
  lemma Ask(n: nat, c: Cluster, p: nat, q: nat) returns (c': Cluster, r: Response)
    requires Reachable(n, c) && Shape(c) && p < |c.servers| && q < |c.servers|
    requires c.servers[p].role == Leader
    ensures Reachable(n, c') && Shape(c') && c.responses + {r} <= c'.responses && c'.reigns == c.reigns
    ensures var args := MakeAppendEntriesArgs(c.servers[p], q);
            var h := HandleAppendEntries(c.servers[q], args);
            c'.servers == c.servers[q := h.server] && r == Response(q, args, h.reply)
  {
    ReachNext(n, c, Send(p, q));
    var sent := Next(c, Send(p, q));
    var m := Request(q, MakeAppendEntriesArgs(c.servers[p], q), c.servers[p].log);
    ReachNext(n, sent, Deliver(m));
    c' := Next(sent, Deliver(m));
    r := Response(q, m.args, HandleAppendEntries(c.servers[q], m.args).reply);
  }

  /** A reply handled, for the first time or again. */
  lemma Received(n: nat, c: Cluster, r: Response) returns (c': Cluster)
    requires Reachable(n, c) && Shape(c) && Enabled(c, Receive(r))
    ensures Reachable(n, c') && Shape(c') && c'.responses == c.responses && c'.reigns == c.reigns
    ensures var p := r.args.leaderId;
            c'.servers == c.servers[p := HandleReply(c.servers[p], r.peer, r.args, r.reply)]
  {
    ReachNext(n, c, Receive(r));
    c' := Next(c, Receive(r));
  }

  /** A whole round between a leader and another server. */
  lemma RunRound(n: nat, c: Cluster, p: nat, q: nat) returns (c': Cluster, r: Response)
    requires Reachable(n, c) && Shape(c) && p < |c.servers| && q < |c.servers| && p != q
    requires c.servers[p].role == Leader
    ensures Reachable(n, c') && Shape(c') && c.responses + {r} <= c'.responses && c'.reigns == c.reigns
    ensures var round := OneRound(c.servers[p], c.servers[q], q);
            c'.servers == c.servers[q := round.follower][p := round.leader]
    ensures var args := MakeAppendEntriesArgs(c.servers[p], q);
            r == Response(q, args, HandleAppendEntries(c.servers[q], args).reply)
  {
    var asked;
    asked, r := Ask(n, c, p, q);
    c' := Received(n, asked, r);
  }

  lemma Elected(n: nat, c: Cluster, p: nat, term: nat, own: nat) returns (c': Cluster)
    requires Reachable(n, c) && Shape(c) && Enabled(c, Elect(p, term, own))
    ensures Reachable(n, c') && Shape(c') && c'.servers == c.servers[p := InOffice(c.servers[p], term, own)]
    ensures c'.reigns.Keys == c.reigns.Keys + {term} && c'.responses == c.responses
  {
    ReachNext(n, c, Elect(p, term, own));
    c' := Next(c, Elect(p, term, own));
  }

  lemma Started(n: nat, c: Cluster, p: nat, command: Command, own: nat) returns (c': Cluster)
    requires Reachable(n, c) && Shape(c) && Enabled(c, Start(p, command, own))
    ensures Reachable(n, c') && Shape(c') && c'.servers == c.servers[p := Appended(c.servers[p], command, own)]
    ensures c'.reigns.Keys == c.reigns.Keys && c'.responses == c.responses
  {
    ReachNext(n, c, Start(p, command, own));
    c' := Next(c, Start(p, command, own));
  }

  lemma Begins(n: nat) returns (c: Cluster)
    ensures c == Init(n) && Reachable(n, c) && Shape(c)
  {
    c := Init(n);
    assert ValidRun(c, []) && After(c, []) == c;
  }

  const FIRST := Entry(1, 10)
  const SECOND := Entry(2, 20)
}
