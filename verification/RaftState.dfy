/** The state of one Raft server as a value, and what each handler of the
    replication code computes from it.

    Slot 0 of every log is a sentinel of term 0, and the entry with log index i
    sits in slot i; there is no compaction.
 */
module RaftState {
  import opened Basics

  type Command = int

  datatype Entry = Entry(term: nat, command: Command)

  type Log = seq<Entry>

  const SENTINEL := Entry(0, 0)

  datatype Role = Follower | Candidate | Leader

  datatype AppendEntriesArgs = AppendEntriesArgs(
    term: nat,
    leaderId: nat,
    prevLogIndex: nat,
    prevLogTerm: nat,
    entries: Log,
    leaderCommit: nat)

  datatype AppendEntriesReply = AppendEntriesReply(term: nat, success: bool, nexIndex: nat)

  /** What `persist` saves: the state a restarted instance begins from. */
  datatype Saved = Saved(term: nat, log: Log)

  datatype Server = Server(
    me: nat,
    role: Role,
    currentTerm: nat,
    log: Log,
    commitIndex: nat,
    nextIndex: seq<nat>,
    matchIndex: seq<nat>)
  {
    function LastIndex(): int {
      |log| - 1
    }

    /** The shape every handler relies on: a sentinel, and one slot per peer. */
    ghost predicate WellFormed() {
      && |log| >= 1 && log[0] == SENTINEL
      && |nextIndex| == |matchIndex| && me < |nextIndex|
      && forall q | 0 <= q < |nextIndex| :: nextIndex[q] >= 1
    }
  }

  function SavedState(sv: Server): Saved {
    Saved(sv.currentTerm, sv.log)
  }

  /** The message a leader sends to a peer: everything after the point where it
      believes the two logs still agree. */
  function MakeAppendEntriesArgs(sv: Server, peer: nat): (args: AppendEntriesArgs)
    requires sv.WellFormed() && peer < |sv.nextIndex|
    ensures args.term == sv.currentTerm && args.leaderId == sv.me && args.leaderCommit == sv.commitIndex
    ensures args.prevLogIndex < |sv.log| && args.prevLogTerm == sv.log[args.prevLogIndex].term
    ensures sv.log[..args.prevLogIndex + 1] + args.entries == sv.log
    ensures args.prevLogIndex == Min(sv.nextIndex[peer] - 1, sv.LastIndex())
  {
    var prev := Min(sv.nextIndex[peer] - 1, sv.LastIndex());
    AppendEntriesArgs(sv.currentTerm, sv.me, prev, sv.log[prev].term, sv.log[prev + 1..], sv.commitIndex)
  }

  /** A message that stops short of a log already holding entries of its term. */
  predicate OutOfOrder(log: Log, args: AppendEntriesArgs)
    requires |log| >= 1
  {
    args.prevLogIndex + |args.entries| < |log| - 1 && log[|log| - 1].term == args.term
  }

  predicate PrevMatches(log: Log, args: AppendEntriesArgs)
    requires args.prevLogIndex < |log|
  {
    args.prevLogIndex == 0 || log[args.prevLogIndex].term == args.prevLogTerm
  }

  /** Below the run of entries of term `t` that ends at `idx`, but never below
      the commit index. */
  function BelowRun(log: Log, commitIndex: nat, t: nat, idx: nat): (r: nat)
    requires idx < |log|
    ensures r <= idx
    ensures idx >= commitIndex ==> r >= commitIndex
    ensures forall k | r < k <= idx :: log[k].term == t && k > commitIndex
    ensures r == 0 || r <= commitIndex || log[r].term != t
  {
    if idx > commitIndex && idx > 0 && log[idx].term == t then BelowRun(log, commitIndex, t, idx - 1) else idx
  }

  datatype Handled = Handled(server: Server, reply: AppendEntriesReply)

  function Refuse(sv: Server, replyTerm: nat, nexIndex: nat): Handled {
    Handled(sv, AppendEntriesReply(replyTerm, false, nexIndex))
  }

  /** The AppendEntries handler. The reply carries the term held before the
      message was looked at. */
  function HandleAppendEntries(sv: Server, args: AppendEntriesArgs): (h: Handled)
    requires sv.WellFormed()
    ensures h.server.WellFormed()
  {
    if args.term < sv.currentTerm then Refuse(sv, sv.currentTerm, 0)
    else
      var joined := sv.(currentTerm := args.term, role := Follower);
      if args.prevLogIndex > sv.LastIndex() then
        Refuse(joined, sv.currentTerm, |sv.log|)
      else if PrevMatches(sv.log, args) then
        if OutOfOrder(sv.log, args) then Refuse(joined, sv.currentTerm, 0)
        else
          var log := sv.log[..args.prevLogIndex + 1] + args.entries;
          var commit := if args.leaderCommit > sv.commitIndex then args.leaderCommit else sv.commitIndex;
          Handled(joined.(log := log, commitIndex := commit), AppendEntriesReply(sv.currentTerm, true, |log|))
      else
        var t := sv.log[args.prevLogIndex].term;
        Refuse(joined, sv.currentTerm, BelowRun(sv.log, sv.commitIndex, t, args.prevLogIndex) + 1)
  }

  /** How many peers are known to store the log up to index `i`. */
  function Holders(matchIndex: seq<nat>, i: nat): (c: nat)
    ensures c <= |matchIndex|
  {
    if matchIndex == [] then 0
    else Holders(matchIndex[..|matchIndex| - 1], i) + if matchIndex[|matchIndex| - 1] >= i then 1 else 0
  }

  predicate Majority(matchIndex: seq<nat>, i: nat) {
    Holders(matchIndex, i) > |matchIndex| / 2
  }

  /** The commit index after scanning upwards from `commitIndex`, at most to
      `limit`, and stopping at the first index without a majority. */
  function ScanCommit(matchIndex: seq<nat>, commitIndex: nat, limit: nat): nat
    decreases limit - commitIndex
  {
    if commitIndex < limit && Majority(matchIndex, commitIndex + 1)
    then ScanCommit(matchIndex, commitIndex + 1, limit)
    else commitIndex
  }

  lemma {:induction false} HoldersMonotone(matchIndex: seq<nat>, i: nat, j: nat)
    requires i <= j
    ensures Holders(matchIndex, j) <= Holders(matchIndex, i)
  {
    if matchIndex != [] {
      HoldersMonotone(matchIndex[..|matchIndex| - 1], i, j);
    }
  }

  /** Stopping at the first failure loses nothing: the scan finds the largest
      index with a strict majority, or stays where it was. */
  lemma {:induction false} ScanFindsLargest(matchIndex: seq<nat>, commitIndex: nat, limit: nat)
    ensures var r := ScanCommit(matchIndex, commitIndex, limit);
            && commitIndex <= r
            && (r == commitIndex || (r <= limit && Majority(matchIndex, r)))
            && forall i | r < i <= limit :: !Majority(matchIndex, i)
    decreases limit - commitIndex
  {
    if commitIndex < limit {
      if Majority(matchIndex, commitIndex + 1) {
        ScanFindsLargest(matchIndex, commitIndex + 1, limit);
      } else {
        forall i | commitIndex < i <= limit ensures !Majority(matchIndex, i) {
          HoldersMonotone(matchIndex, commitIndex + 1, i);
        }
      }
    }
  }

  /** The set of peers behind a count. */
  function HolderSet(matchIndex: seq<nat>, i: nat): set<nat> {
    set q: nat | q < |matchIndex| && matchIndex[q] >= i
  }

  lemma {:induction false} HoldersCountsHolderSet(matchIndex: seq<nat>, i: nat)
    ensures |HolderSet(matchIndex, i)| == Holders(matchIndex, i)
  {
    if matchIndex == [] {
      assert HolderSet(matchIndex, i) == {};
    } else {
      var last := |matchIndex| - 1;
      var init := matchIndex[..last];
      HoldersCountsHolderSet(init, i);
      assert HolderSet(matchIndex, i) == HolderSet(init, i) + if matchIndex[last] >= i then {last} else {};
    }
  }

  lemma {:induction false} NoHolders(matchIndex: seq<nat>, i: nat)
    requires forall q | 0 <= q < |matchIndex| :: matchIndex[q] < i
    ensures Holders(matchIndex, i) == 0
  {
    if matchIndex != [] {
      NoHolders(matchIndex[..|matchIndex| - 1], i);
    }
  }

  /** With every match index inside the log, the scan stays inside the log even
      though its limit is one slot too far. */
  lemma ScanStaysInside(matchIndex: seq<nat>, commitIndex: nat, limit: nat, bound: nat)
    requires forall q | 0 <= q < |matchIndex| :: matchIndex[q] < bound
    requires commitIndex < bound
    ensures ScanCommit(matchIndex, commitIndex, limit) < bound
  {
    var r := ScanCommit(matchIndex, commitIndex, limit);
    ScanFindsLargest(matchIndex, commitIndex, limit);
    NoHolders(matchIndex, bound);
    if bound <= r {
      HoldersMonotone(matchIndex, bound, r);
    }
  }

  function UpdateCommitIndex(sv: Server): Server {
    sv.(commitIndex := ScanCommit(sv.matchIndex, sv.commitIndex, |sv.log|))
  }

  /** What the leader's side of one call does with the reply. */
  function HandleReply(sv: Server, peer: nat, args: AppendEntriesArgs, reply: AppendEntriesReply): (r: Server)
    requires sv.WellFormed() && peer < |sv.nextIndex|
    ensures r.WellFormed() && r.log == sv.log && r.me == sv.me
  {
    if sv.currentTerm < reply.term then sv.(currentTerm := reply.term, role := Follower)
    else if sv.role != Leader || sv.currentTerm != args.term then sv
    else if reply.success then
      var noted :=
        if sv.nextIndex[peer] < reply.nexIndex
        then sv.(nextIndex := sv.nextIndex[peer := reply.nexIndex],
                 matchIndex := sv.matchIndex[peer := reply.nexIndex - 1])
        else sv;
      if args.entries != [] && args.entries[|args.entries| - 1].term == sv.currentTerm
      then UpdateCommitIndex(noted)
      else noted
    else if reply.nexIndex > 0 then sv.(nextIndex := sv.nextIndex[peer := reply.nexIndex])
    else sv
  }

  /** A reply lowers a match index exactly when a current, successful one reports less
      than the match index but more than the next index, which an earlier refusal
      must have lowered. */
  lemma MatchLoweredIff(sv: Server, peer: nat, args: AppendEntriesArgs, reply: AppendEntriesReply)
    requires sv.WellFormed() && peer < |sv.nextIndex|
    ensures var after := HandleReply(sv, peer, args, reply);
            (exists q | 0 <= q < |sv.matchIndex| == |after.matchIndex| :: after.matchIndex[q] < sv.matchIndex[q])
            <==> (&& reply.term <= sv.currentTerm == args.term && sv.role == Leader && reply.success
                  && sv.nextIndex[peer] < reply.nexIndex <= sv.matchIndex[peer])
  {
    var after := HandleReply(sv, peer, args, reply);
    if && reply.term <= sv.currentTerm == args.term && sv.role == Leader && reply.success
       && sv.nextIndex[peer] < reply.nexIndex <= sv.matchIndex[peer] {
      assert after.matchIndex[peer] < sv.matchIndex[peer];
    }
  }
}
