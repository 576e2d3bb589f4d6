/** Runs of three servers in which a server that lacks a committed entry is elected:
    it then asks forever, or erases the entry. */
module RaftErasure {
  import opened RaftState
  import opened RaftNode
  import opened RaftProtocol
  import opened RaftSafety
  import opened RaftBackoff
  import opened RaftRuns

  const SERVERS := 3

  function Fresh(i: nat): Server {
    Restarted(i, 3, Saved(0, [SENTINEL]))
  }

  function Following(i: nat, term: nat, log: Log): Server {
    Fresh(i).(currentTerm := term, log := log)
  }

  function Leading(i: nat, term: nat, log: Log, commitIndex: nat, nextIndex: seq<nat>, matchIndex: seq<nat>): Server {
    Server(i, Leader, term, log, commitIndex, nextIndex, matchIndex)
  }

  lemma HoldersOfThree(m: seq<nat>, i: nat)
    requires |m| == 3
    ensures Holders(m, i) == (if m[0] >= i then 1 else 0) + (if m[1] >= i then 1 else 0) + (if m[2] >= i then 1 else 0)
  {
    assert m[..2][..1] == m[..1] && m[..1][..0] == [];
    assert Holders(m[..1], i) == if m[0] >= i then 1 else 0;
    assert Holders(m[..2], i) == Holders(m[..1], i) + if m[1] >= i then 1 else 0;
  }

  lemma FirstLeader() returns (c: Cluster)
    ensures Reachable(SERVERS, c) && Shape(c) && |c.servers| == 3 && c.reigns.Keys == {1}
    ensures c.servers[0] == Leading(0, 1, [SENTINEL], 0, [1, 1, 1], [0, 0, 0])
    ensures c.servers[1] == Fresh(1) && c.servers[2] == Fresh(2)
  {
    c := Begins(SERVERS);
    assert c.servers[0] == Fresh(0) && c.servers[1] == Fresh(1) && c.servers[2] == Fresh(2);
    c := Elected(SERVERS, c, 0, 1, 0);
  }

  /** Server 0 leads term 1 and appends an entry. */
  lemma FirstTerm() returns (c: Cluster)
    ensures Reachable(SERVERS, c) && Shape(c) && |c.servers| == 3 && c.reigns.Keys == {1}
    ensures c.servers[0] == Leading(0, 1, [SENTINEL, FIRST], 0, [1, 1, 1], [1, 0, 0])
    ensures c.servers[1] == Fresh(1) && c.servers[2] == Fresh(2)
  {
    c := FirstLeader();
    assert [0, 0, 0][0 := 1] == [1, 0, 0] && [SENTINEL] + [FIRST] == [SENTINEL, FIRST];
    c := Started(SERVERS, c, 0, 10, 1);
  }

  // ------------------------------------------------------- asking forever

  lemma RivalElected() returns (c: Cluster)
    ensures Reachable(SERVERS, c) && Shape(c) && |c.servers| == 3 && c.reigns.Keys == {1, 2}
    ensures c.servers[0] == Leading(0, 1, [SENTINEL, FIRST], 0, [1, 1, 1], [1, 0, 0])
    ensures c.servers[1] == Leading(1, 2, [SENTINEL], 0, [1, 1, 1], [0, 0, 0]) && c.servers[2] == Fresh(2)
  {
    c := FirstTerm();
    c := Elected(SERVERS, c, 1, 2, 0);
  }

  /** Server 1 leads term 2 without that entry and appends its own. */
  lemma RivalAppends() returns (c: Cluster)
    ensures Reachable(SERVERS, c) && Shape(c) && |c.servers| == 3 && c.reigns.Keys == {1, 2}
    ensures c.servers[0] == Leading(0, 1, [SENTINEL, FIRST], 0, [1, 1, 1], [1, 0, 0])
    ensures c.servers[1] == Leading(1, 2, [SENTINEL, SECOND], 0, [1, 1, 1], [0, 1, 0]) && c.servers[2] == Fresh(2)
  {
    c := RivalElected();
    assert [0, 0, 0][1 := 1] == [0, 1, 0] && [SENTINEL] + [SECOND] == [SENTINEL, SECOND];
    c := Started(SERVERS, c, 1, 20, 1);
  }

  /** It commits its entry together with server 2. */
  lemma RivalCommits() returns (c: Cluster)
    ensures Reachable(SERVERS, c) && Shape(c) && |c.servers| == 3 && c.reigns.Keys == {1, 2}
    ensures c.servers[0] == Leading(0, 1, [SENTINEL, FIRST], 0, [1, 1, 1], [1, 0, 0])
    ensures c.servers[1] == Leading(1, 2, [SENTINEL, SECOND], 1, [1, 1, 2], [0, 1, 1])
  {
    var r;
    c := RivalAppends();
    CountsSecond(c.servers[1], c.servers[2]);
    c, r := RunRound(SERVERS, c, 1, 2);
  }

  lemma CountsSecond(leader: Server, follower: Server)
    requires leader == Leading(1, 2, [SENTINEL, SECOND], 0, [1, 1, 1], [0, 1, 0]) && follower == Fresh(2)
    ensures OneRound(leader, follower, 2).leader == Leading(1, 2, [SENTINEL, SECOND], 1, [1, 1, 2], [0, 1, 1])
  {
    var m: seq<nat> := [0, 1, 1];
    var args := MakeAppendEntriesArgs(leader, 2);
    assert args.entries == [SECOND];
    assert HandleAppendEntries(follower, args).reply == AppendEntriesReply(0, true, 2);
    assert leader.matchIndex[2 := 1] == m && leader.nextIndex[2 := 2] == [1, 1, 2];
    HoldersOfThree(m, 1);
    HoldersOfThree(m, 2);
    assert ScanCommit(m, 0, 2) == 1;
  }

  /** Server 0 leads term 3 and cannot get through to server 1. */
  lemma AsksForever() returns (c: Cluster)
    ensures Reachable(SERVERS, c) && |c.servers| == 3 && c.servers[0].role == Leader
    ensures Stuck(c.servers[0], c.servers[1], 1)
  {
    c := RivalCommits();
    c := Elected(SERVERS, c, 0, 3, 1);
    assert c.servers[0].nextIndex[1] == 2;
    ReachablePair(SERVERS, c, 0, 1);
  }

  // ----------------------------------------- erasing a committed entry

  /** Server 0 copies its entry to server 1 and commits it. */
  lemma CopiesFirst() returns (c: Cluster)
    ensures Reachable(SERVERS, c) && Shape(c) && |c.servers| == 3 && c.reigns.Keys == {1}
    ensures c.servers[0] == Leading(0, 1, [SENTINEL, FIRST], 1, [1, 2, 1], [1, 1, 0])
    ensures c.servers[1] == Following(1, 1, [SENTINEL, FIRST]) && c.servers[2] == Fresh(2)
  {
    var r;
    c := FirstTerm();
    CountsFirst(c.servers[0], c.servers[1]);
    c, r := RunRound(SERVERS, c, 0, 1);
  }

  lemma CountsFirst(leader: Server, follower: Server)
    requires leader == Leading(0, 1, [SENTINEL, FIRST], 0, [1, 1, 1], [1, 0, 0]) && follower == Fresh(1)
    ensures OneRound(leader, follower, 1)
         == Round(Leading(0, 1, [SENTINEL, FIRST], 1, [1, 2, 1], [1, 1, 0]), Following(1, 1, [SENTINEL, FIRST]), true)
  {
    var m: seq<nat> := [1, 1, 0];
    var args := MakeAppendEntriesArgs(leader, 1);
    assert args.entries == [FIRST] && [SENTINEL][..1] + [FIRST] == [SENTINEL, FIRST];
    assert HandleAppendEntries(follower, args)
        == Handled(Following(1, 1, [SENTINEL, FIRST]), AppendEntriesReply(0, true, 2));
    assert leader.matchIndex[1 := 1] == m && leader.nextIndex[1 := 2] == [1, 2, 1];
    HoldersOfThree(m, 1);
    HoldersOfThree(m, 2);
    assert ScanCommit(m, 0, 2) == 1;
  }

  lemma HeirElected() returns (c: Cluster)
    ensures Reachable(SERVERS, c) && Shape(c) && |c.servers| == 3 && c.reigns.Keys == {1, 2}
    ensures c.servers[0] == Leading(0, 1, [SENTINEL, FIRST], 1, [1, 2, 1], [1, 1, 0])
    ensures c.servers[1] == Leading(1, 2, [SENTINEL, FIRST], 0, [2, 2, 2], [0, 1, 0]) && c.servers[2] == Fresh(2)
  {
    c := CopiesFirst();
    c := Elected(SERVERS, c, 1, 2, 1);
  }

  /** Server 1 leads term 2 and appends a second entry. */
  lemma HeirAppends() returns (c: Cluster)
    ensures Reachable(SERVERS, c) && Shape(c) && |c.servers| == 3 && c.reigns.Keys == {1, 2}
    ensures c.servers[0] == Leading(0, 1, [SENTINEL, FIRST], 1, [1, 2, 1], [1, 1, 0])
    ensures c.servers[1] == Leading(1, 2, [SENTINEL, FIRST, SECOND], 0, [2, 2, 2], [0, 2, 0]) && c.servers[2] == Fresh(2)
  {
    c := HeirElected();
    assert [0, 1, 0][1 := 2] == [0, 2, 0] && [SENTINEL, FIRST] + [SECOND] == [SENTINEL, FIRST, SECOND];
    c := Started(SERVERS, c, 1, 20, 2);
  }

  lemma HeirBacksOff() returns (c: Cluster)
    ensures Reachable(SERVERS, c) && Shape(c) && |c.servers| == 3 && c.reigns.Keys == {1, 2}
    ensures c.servers[0] == Leading(0, 1, [SENTINEL, FIRST], 1, [1, 2, 1], [1, 1, 0])
    ensures c.servers[1] == Leading(1, 2, [SENTINEL, FIRST, SECOND], 0, [2, 2, 1], [0, 2, 0])
    ensures c.servers[2] == Following(2, 2, [SENTINEL])
  {
    var r;
    c := HeirAppends();
    assert [2, 2, 2][2 := 1] == [2, 2, 1];
    c, r := RunRound(SERVERS, c, 1, 2);
  }

  /** It commits both entries together with server 2. */
  lemma HeirCommits() returns (c: Cluster)
    ensures Reachable(SERVERS, c) && Shape(c) && |c.servers| == 3 && c.reigns.Keys == {1, 2}
    ensures c.servers[0] == Leading(0, 1, [SENTINEL, FIRST], 1, [1, 2, 1], [1, 1, 0])
    ensures c.servers[1] == Leading(1, 2, [SENTINEL, FIRST, SECOND], 2, [2, 2, 3], [0, 2, 2])
  {
    var r;
    c := HeirBacksOff();
    CountsBoth(c.servers[1], c.servers[2]);
    c, r := RunRound(SERVERS, c, 1, 2);
  }

  lemma CountsBoth(leader: Server, follower: Server)
    requires leader == Leading(1, 2, [SENTINEL, FIRST, SECOND], 0, [2, 2, 1], [0, 2, 0])
    requires follower == Following(2, 2, [SENTINEL])
    ensures OneRound(leader, follower, 2).leader == Leading(1, 2, [SENTINEL, FIRST, SECOND], 2, [2, 2, 3], [0, 2, 2])
  {
    var m: seq<nat> := [0, 2, 2];
    var args := MakeAppendEntriesArgs(leader, 2);
    assert args.entries == [FIRST, SECOND];
    assert HandleAppendEntries(follower, args).reply == AppendEntriesReply(2, true, 3);
    assert leader.matchIndex[2 := 2] == m && leader.nextIndex[2 := 3] == [2, 2, 3];
    HoldersOfThree(m, 1);
    HoldersOfThree(m, 2);
    HoldersOfThree(m, 3);
    assert ScanCommit(m, 1, 3) == 2;
  }

  /** Server 0 leads term 3 with the first entry alone, and its first message takes the
      second one away from server 1. */
  lemma ErasesSecond() returns (c: Cluster, m: Request)
    ensures Reachable(SERVERS, c) && Shape(c) && Enabled(c, Deliver(m)) && m.dst == 1
    ensures Committed(c.servers[1]) == [SENTINEL, FIRST, SECOND]
    ensures Next(c, Deliver(m)).servers[1].log == [SENTINEL, FIRST] && Next(c, Deliver(m)).servers[1].commitIndex == 2
  {
    c := HeirCommits();
    c := Elected(SERVERS, c, 0, 3, 1);
    assert c.servers[0] == Leading(0, 3, [SENTINEL, FIRST], 1, [2, 2, 2], [1, 0, 0]);
    m := Request(1, MakeAppendEntriesArgs(c.servers[0], 1), c.servers[0].log);
    TakesAway(c.servers[1], m.args);
    ReachNext(SERVERS, c, Send(0, 1));
    c := Next(c, Send(0, 1));
  }

  lemma TakesAway(sv: Server, args: AppendEntriesArgs)
    requires sv == Leading(1, 2, [SENTINEL, FIRST, SECOND], 2, [2, 2, 3], [0, 2, 2])
    requires args == AppendEntriesArgs(3, 0, 1, 1, [], 1)
    ensures Committed(sv) == [SENTINEL, FIRST, SECOND]
    ensures var after := HandleAppendEntries(sv, args).server; after.log == [SENTINEL, FIRST] && after.commitIndex == 2
  {
    assert sv.log[..2] == [SENTINEL, FIRST];
  }
}
