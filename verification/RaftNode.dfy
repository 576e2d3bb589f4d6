/** The replication code of one Raft server, in the shape it is written: an
    object whose handlers update its fields in place and save what must survive
    a crash. Every method is tied to the function of RaftState that says what
    it computes. */
module RaftNode {
  import opened RaftState

  /** Holds the encoded state of one instance. Saving replaces the whole value,
      so no caller shares storage with it. */
  class Persister {
    var raftState: Saved

    constructor (initial: Saved)
      ensures raftState == initial
    {
      raftState := initial;
    }

    method SaveRaftState(state: Saved)
      modifies this
      ensures raftState == state
    {
      raftState := state;
    }

    method ReadRaftState() returns (state: Saved)
      ensures state == raftState
    {
      state := raftState;
    }

    /** A copy is a new object: later saves to either leave the other alone. */
    method Copy() returns (copy: Persister)
      ensures fresh(copy) && copy.raftState == raftState
    {
      copy := new Persister(raftState);
    }
  }

  class Raft {
    const me: nat
    const persister: Persister
    var role: Role
    var currentTerm: nat
    var logEntries: Log
    var commitIndex: nat
    var nextIndex: seq<nat>
    var matchIndex: seq<nat>

    ghost function State(): Server
      reads this
    {
      Server(me, role, currentTerm, logEntries, commitIndex, nextIndex, matchIndex)
    }

    /** Between handlers, what is saved is what is held. */
    ghost predicate Valid()
      reads this, persister
    {
      State().WellFormed() && persister.raftState == SavedState(State())
    }

    /** A restarted instance: the saved term and log, and nothing else. */
    constructor (id: nat, peers: nat, p: Persister)
      requires id < peers
      requires |p.raftState.log| >= 1 && p.raftState.log[0] == SENTINEL
      ensures Valid() && persister == p
      ensures State() == Restarted(id, peers, p.raftState)
    {
      me := id;
      persister := p;
      role := Follower;
      currentTerm := p.raftState.term;
      logEntries := p.raftState.log;
      commitIndex := 0;
      nextIndex := seq(peers, _ => 1);
      matchIndex := seq(peers, _ => 0);
    }

    method Persist()
      modifies persister
      ensures persister.raftState == SavedState(State())
    {
      persister.SaveRaftState(Saved(currentTerm, logEntries));
    }

    method MakeArgs(peer: nat) returns (args: AppendEntriesArgs)
      requires Valid() && peer < |nextIndex|
      ensures args == MakeAppendEntriesArgs(State(), peer)
    {
      var next := nextIndex[peer];
      var last := |logEntries| - 1;
      var entries, prevIndex, prevTerm := [], last, logEntries[last].term;
      if next <= last {
        entries := entries + logEntries[next..];
        prevIndex := next - 1;
        prevTerm := logEntries[prevIndex].term;
      }
      args := AppendEntriesArgs(currentTerm, me, prevIndex, prevTerm, entries, commitIndex);
    }

    method IsOutOfOrder(args: AppendEntriesArgs) returns (b: bool)
      requires |logEntries| >= 1
      ensures b == OutOfOrder(logEntries, args)
    {
      var last := |logEntries| - 1;
      b := args.prevLogIndex + |args.entries| < last && logEntries[last].term == args.term;
    }

    method AppendEntries(args: AppendEntriesArgs) returns (reply: AppendEntriesReply)
      requires Valid()
      modifies this, persister
      ensures Valid()
      ensures HandleAppendEntries(old(State()), args) == Handled(State(), reply)
    {
      var replyTerm := currentTerm;
      if args.term < currentTerm {
        return AppendEntriesReply(replyTerm, false, 0);
      }
      currentTerm := args.term;
      role := Follower;
      var success, nexIndex := false, 0;
      var last := |logEntries| - 1;
      if args.prevLogIndex > last {
        nexIndex := last + 1;
      } else if args.prevLogIndex == 0 || logEntries[args.prevLogIndex].term == args.prevLogTerm {
        var late := IsOutOfOrder(args);
        if !late {
          success := true;
          logEntries := logEntries[..args.prevLogIndex + 1] + args.entries;
          nexIndex := |logEntries|;
        }
      } else {
        var idx: nat := args.prevLogIndex;
        var conflictTerm := logEntries[args.prevLogIndex].term;
        while idx > commitIndex && idx > 0 && logEntries[idx].term == conflictTerm
          invariant idx <= args.prevLogIndex
          invariant BelowRun(logEntries, commitIndex, conflictTerm, args.prevLogIndex)
                 == BelowRun(logEntries, commitIndex, conflictTerm, idx)
        {
          idx := idx - 1;
        }
        nexIndex := idx + 1;
      }
      if success && args.leaderCommit > commitIndex {
        commitIndex := args.leaderCommit;
      }
      Persist();
      reply := AppendEntriesReply(replyTerm, success, nexIndex);
    }

    /** Counts holders of index `i`, leaving the count as soon as it is a majority. */
    method HasMajority(i: nat) returns (b: bool)
      ensures b == Majority(matchIndex, i)
    {
      var count := 0;
      for q := 0 to |matchIndex|
        invariant count == Holders(matchIndex[..q], i)
        invariant count <= |matchIndex| / 2
      {
        assert matchIndex[..q + 1][..q] == matchIndex[..q];
        if matchIndex[q] >= i {
          count := count + 1;
          if count > |matchIndex| / 2 {
            HoldersPrefix(matchIndex, q + 1, i);
            return true;
          }
        }
      }
      assert matchIndex[..|matchIndex|] == matchIndex;
      b := false;
    }

    method AdvanceCommitIndex()
      requires Valid()
      modifies this`commitIndex
      ensures Valid()
      ensures State() == UpdateCommitIndex(old(State()))
    {
      var i := commitIndex + 1;
      while i <= |logEntries|
        invariant i == commitIndex + 1
        invariant ScanCommit(matchIndex, commitIndex, |logEntries|)
               == ScanCommit(matchIndex, old(commitIndex), |logEntries|)
        decreases |logEntries| + 1 - i
      {
        var enough := HasMajority(i);
        if enough {
          commitIndex := i;
        }
        if commitIndex != i {
          break;
        }
        i := i + 1;
      }
    }

    /** The reply side of one round of the send loop; `again` says whether the
        loop sends once more at once. */
    method ReceiveReply(peer: nat, args: AppendEntriesArgs, reply: AppendEntriesReply) returns (again: bool)
      requires Valid() && peer < |nextIndex|
      modifies this, persister
      ensures Valid()
      ensures State() == HandleReply(old(State()), peer, args, reply)
      ensures again <==> reply.term <= old(currentTerm) == args.term && old(role) == Leader && !reply.success
    {
      if currentTerm < reply.term {
        currentTerm := reply.term;
        role := Follower;
        Persist();
        return false;
      }
      if role != Leader || currentTerm != args.term {
        return false;
      }
      if reply.success {
        if nextIndex[peer] < reply.nexIndex {
          nextIndex := nextIndex[peer := reply.nexIndex];
          matchIndex := matchIndex[peer := reply.nexIndex - 1];
        }
        if |args.entries| > 0 && currentTerm == args.entries[|args.entries| - 1].term {
          AdvanceCommitIndex();
        }
        Persist();
        return false;
      }
      if reply.nexIndex > 0 {
        nextIndex := nextIndex[peer := reply.nexIndex];
      }
      again := true;
    }
  }

  /** The volatile state of an instance started from a saved state. */
  function Restarted(id: nat, peers: nat, saved: Saved): Server {
    Server(id, Follower, saved.term, saved.log, 0, seq(peers, _ => 1), seq(peers, _ => 0))
  }

  /** More peers never lower the count. */
  lemma {:induction false} HoldersPrefix(matchIndex: seq<nat>, k: nat, i: nat)
    requires k <= |matchIndex|
    ensures Holders(matchIndex[..k], i) <= Holders(matchIndex, i)
    decreases |matchIndex| - k
  {
    if k == |matchIndex| {
      assert matchIndex[..k] == matchIndex;
    } else {
      assert matchIndex[..k + 1][..k] == matchIndex[..k];
      HoldersPrefix(matchIndex, k + 1, i);
    }
  }
}
