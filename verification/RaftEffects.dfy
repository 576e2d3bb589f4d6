/** What messages and replies must bring about, in every reachable state: commit
    indices travel, later terms depose, and only entries of the own term are counted. */
module RaftEffects {
  import opened Basics
  import opened RaftState
  import opened RaftNode
  import opened RaftProtocol
  import opened RaftSafety

  /** An accepted message, however late, leaves the receiver with the larger of the two
      commit indices, and so with everything the sender had committed when it sent;
      one that is refused leaves log and commit index alone. */
  lemma CommitTravels(n: nat, c: Cluster, m: Request)
    requires Reachable(n, c) && Shape(c) && Enabled(c, Deliver(m))
    ensures var sv, after := c.servers[m.dst], Next(c, Deliver(m)).servers[m.dst];
            if HandleAppendEntries(sv, m.args).reply.success then
              && after.commitIndex == Max(sv.commitIndex, m.args.leaderCommit)
              && m.args.leaderCommit < |m.sentLog| && m.sentLog[..m.args.leaderCommit + 1] <= Committed(after)
            else after.log == sv.log && after.commitIndex == sv.commitIndex
  {
    ReachableInv(n, c);
    assert RequestOk(m, |c.servers|, c.reigns);
    AcceptedIsSentLog(c, m);
    HandledCommit(c.servers[m.dst], m.args, m.sentLog);
  }

  lemma HandledCommit(sv: Server, args: AppendEntriesArgs, sent: Log)
    requires sv.WellFormed() && args.leaderCommit < |sent|
    requires var h := HandleAppendEntries(sv, args); h.reply.success ==> h.server.log == sent
    ensures var h := HandleAppendEntries(sv, args);
            if h.reply.success then
              && h.server.commitIndex == Max(sv.commitIndex, args.leaderCommit)
              && sent[..args.leaderCommit + 1] <= Committed(h.server)
            else h.server.log == sv.log && h.server.commitIndex == sv.commitIndex
  {
  }

  /** A message of a current term makes the receiver a follower in that term, accepted
      or not; a stale one changes nothing and tells the sender the later term. */
  lemma MessageDeposes(n: nat, c: Cluster, m: Request)
    requires Reachable(n, c) && Shape(c) && Enabled(c, Deliver(m))
    ensures var sv, after := c.servers[m.dst], Next(c, Deliver(m)).servers[m.dst];
            var reply := HandleAppendEntries(sv, m.args).reply;
            && Response(m.dst, m.args, reply) in Next(c, Deliver(m)).responses && reply.term == sv.currentTerm
            && (m.args.term >= sv.currentTerm ==> after.currentTerm == m.args.term && after.role == Follower)
            && (m.args.term < sv.currentTerm ==> after == sv && !reply.success)
  {
  }

  /** After a reply the server is in no earlier term than the reply, a follower if that
      term is later than its own; otherwise it keeps its term and its role. */
  lemma ReplyDeposes(n: nat, c: Cluster, r: Response)
    requires Reachable(n, c) && Shape(c) && Enabled(c, Receive(r))
    ensures var sv, c' := c.servers[r.args.leaderId], Next(c, Receive(r));
            var after := c'.servers[r.args.leaderId];
            && after.currentTerm == Max(sv.currentTerm, r.reply.term) == c'.disks[r.args.leaderId].term
            && after.role == (if r.reply.term > sv.currentTerm then Follower else sv.role)
            && after.log == sv.log
  {
  }

  /** A reply moves the commit index only if it reports success of a message of the term
      the server still leads, and that message ended with an entry of that term. Such
      a reply leaves no index of the log above the commit index with a majority. */
  lemma OnlyOwnEntriesCount(n: nat, c: Cluster, r: Response)
    requires Reachable(n, c) && Shape(c) && Enabled(c, Receive(r))
    ensures var sv, after := c.servers[r.args.leaderId], Next(c, Receive(r)).servers[r.args.leaderId];
            var counted := && sv.role == Leader && r.reply.term <= sv.currentTerm == r.args.term && r.reply.success
                           && r.args.entries != [] && r.args.entries[|r.args.entries| - 1].term == sv.currentTerm;
            if counted then
              && after.commitIndex >= sv.commitIndex
              && forall i | after.commitIndex < i < |sv.log| :: !Majority(after.matchIndex, i)
            else after.commitIndex == sv.commitIndex
  {
    var sv, after := c.servers[r.args.leaderId], Next(c, Receive(r)).servers[r.args.leaderId];
    ScanFindsLargest(after.matchIndex, sv.commitIndex, |sv.log|);
  }

  /** A reply to a message of another term, or to a server that no longer leads, changes
      nothing unless it brings a later term. */
  lemma StaleReplyIgnored(n: nat, c: Cluster, r: Response)
    requires Reachable(n, c) && Shape(c) && Enabled(c, Receive(r))
    requires r.reply.term <= c.servers[r.args.leaderId].currentTerm
    requires c.servers[r.args.leaderId].role != Leader || c.servers[r.args.leaderId].currentTerm != r.args.term
    ensures Next(c, Receive(r)) == c
  {
  }

  /** A successful reply of the leader's own term raises what it knows of the peer to at
      least what the reply reports, unless it knows so already. */
  lemma SuccessIsNoted(n: nat, c: Cluster, r: Response)
    requires Reachable(n, c) && Shape(c) && Enabled(c, Receive(r)) && r.reply.success
    requires var sv := c.servers[r.args.leaderId];
             sv.role == Leader && r.reply.term <= sv.currentTerm == r.args.term
    ensures var sv, after := c.servers[r.args.leaderId], Next(c, Receive(r)).servers[r.args.leaderId];
            && after.nextIndex == sv.nextIndex[r.peer := Max(sv.nextIndex[r.peer], r.reply.nexIndex)]
            && after.matchIndex == (if sv.nextIndex[r.peer] < r.reply.nexIndex
                                    then sv.matchIndex[r.peer := r.reply.nexIndex - 1] else sv.matchIndex)
  {
    var sv := c.servers[r.args.leaderId];
    if sv.nextIndex[r.peer] >= r.reply.nexIndex {
      assert sv.nextIndex[r.peer := sv.nextIndex[r.peer]] == sv.nextIndex;
    }
  }
}
