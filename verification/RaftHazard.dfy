/** Runs of four servers. In one a leader commits an entry it inherited, by counting
    copies, before any entry of its own term has a majority: the case section 5.4.2
    of the extended Raft paper forbids. In the other a match index goes down. */
module RaftHazard {
  import opened RaftState
  import opened RaftNode
  import opened RaftProtocol
  import opened RaftSafety
  import opened RaftBackoff
  import opened RaftRuns

  const SERVERS := 4

  function Fresh(i: nat): Server {
    Restarted(i, 4, Saved(0, [SENTINEL]))
  }

  /** A follower that has heard from the leader of term 2. */
  function Heard(i: nat, log: Log): Server {
    Fresh(i).(currentTerm := 2, log := log)
  }

  function Chief(term: nat, log: Log, nextIndex: seq<nat>, matchIndex: seq<nat>): Server {
    Server(0, Leader, term, log, 0, nextIndex, matchIndex)
  }

  ghost predicate Sized(log: Log, nextIndex: seq<nat>, matchIndex: seq<nat>) {
    && |log| >= 2 && log[0] == SENTINEL && |nextIndex| == |matchIndex| == 4
    && forall q | 0 <= q < 4 :: nextIndex[q] >= 1
  }

  /** An empty follower refuses and the leader backs off to the start. */
  lemma Refuses(log: Log, nextIndex: seq<nat>, matchIndex: seq<nat>, q: nat)
    requires Sized(log, nextIndex, matchIndex) && q < 4 && nextIndex[q] == 2
    ensures OneRound(Chief(2, log, nextIndex, matchIndex), Fresh(q), q)
         == Round(Chief(2, log, nextIndex[q := 1], matchIndex), Heard(q, [SENTINEL]), false)
  {
  }

  lemma Accepts(log: Log, nextIndex: seq<nat>, matchIndex: seq<nat>, q: nat)
    requires Sized(log, nextIndex, matchIndex) && q < 4 && nextIndex[q] == 1
    ensures var args := MakeAppendEntriesArgs(Chief(2, log, nextIndex, matchIndex), q);
            && args.term == 2 && args.leaderId == 0 && args.entries == log[1..]
            && HandleAppendEntries(Heard(q, [SENTINEL]), args)
               == Handled(Heard(q, log), AppendEntriesReply(2, true, |log|))
  {
    assert [SENTINEL] + log[1..] == log && [SENTINEL][..1] == [SENTINEL];
  }

  lemma FirstLeader() returns (c: Cluster)
    ensures Reachable(SERVERS, c) && Shape(c) && |c.servers| == 4 && c.reigns.Keys == {1}
    ensures c.servers[0] == Chief(1, [SENTINEL], [1, 1, 1, 1], [0, 0, 0, 0])
    ensures c.servers[1] == Fresh(1) && c.servers[2] == Fresh(2)
  {
    c := Begins(SERVERS);
    assert c.servers[0] == Fresh(0) && c.servers[1] == Fresh(1) && c.servers[2] == Fresh(2);
    c := Elected(SERVERS, c, 0, 1, 0);
  }

  lemma FirstTerm() returns (c: Cluster)
    ensures Reachable(SERVERS, c) && Shape(c) && |c.servers| == 4 && c.reigns.Keys == {1}
    ensures c.servers[0] == Chief(1, [SENTINEL, FIRST], [1, 1, 1, 1], [1, 0, 0, 0])
    ensures c.servers[1] == Fresh(1) && c.servers[2] == Fresh(2)
  {
    c := FirstLeader();
    AppendsFirst(c.servers[0]);
    c := Started(SERVERS, c, 0, 10, 1);
  }

  lemma AppendsFirst(sv: Server)
    requires sv == Chief(1, [SENTINEL], [1, 1, 1, 1], [0, 0, 0, 0])
    ensures Appended(sv, 10, 1) == Chief(1, [SENTINEL, FIRST], [1, 1, 1, 1], [1, 0, 0, 0])
  {
    assert [0, 0, 0, 0][0 := 1] == [1, 0, 0, 0];
  }

  /** Server 0 leads term 1 and appends an entry, then leads term 2. */
  lemma TakesOffice() returns (c: Cluster)
    ensures Reachable(SERVERS, c) && Shape(c) && |c.servers| == 4
    ensures c.servers[0] == Chief(2, [SENTINEL, FIRST], [2, 2, 2, 2], [1, 0, 0, 0])
    ensures c.servers[1] == Fresh(1) && c.servers[2] == Fresh(2)
  {
    c := FirstTerm();
    c := Elected(SERVERS, c, 0, 2, 1);
  }

  /** The first round is refused and backs off. */
  lemma BacksOff() returns (c: Cluster, refusal: Response)
    ensures Reachable(SERVERS, c) && Shape(c) && |c.servers| == 4 && refusal in c.responses
    ensures refusal.peer == 1 && refusal.args.leaderId == 0 && refusal.args.term == 2
    ensures refusal.reply == AppendEntriesReply(0, false, 1)
    ensures c.servers[0] == Chief(2, [SENTINEL, FIRST], [2, 1, 2, 2], [1, 0, 0, 0])
    ensures c.servers[1] == Heard(1, [SENTINEL]) && c.servers[2] == Fresh(2)
  {
    c := TakesOffice();
    Refuses([SENTINEL, FIRST], [2, 2, 2, 2], [1, 0, 0, 0], 1);
    c, refusal := RunRound(SERVERS, c, 0, 1);
    assert [2, 2, 2, 2][1 := 1] == [2, 1, 2, 2];
  }

  /** The second copies the log. Its last entry is not of the leader's term, so
      nothing is counted yet. */
  lemma CatchesUp() returns (c: Cluster, refusal: Response, success: Response)
    ensures Reachable(SERVERS, c) && Shape(c) && |c.servers| == 4 && Replies(c, refusal, success)
    ensures c.servers[0] == Chief(2, [SENTINEL, FIRST], [2, 2, 2, 2], [1, 1, 0, 0])
    ensures c.servers[1] == Heard(1, [SENTINEL, FIRST]) && c.servers[2] == Fresh(2)
  {
    c, refusal := BacksOff();
    Accepts([SENTINEL, FIRST], [2, 1, 2, 2], [1, 0, 0, 0], 1);
    NotCounted(c.servers[0], MakeAppendEntriesArgs(c.servers[0], 1));
    c, success := RunRound(SERVERS, c, 0, 1);
  }

  /** Server 1 refused the first message and accepted the second. */
  ghost predicate Replies(c: Cluster, refusal: Response, success: Response) {
    && {refusal, success} <= c.responses && refusal.peer == success.peer == 1
    && refusal.args.leaderId == success.args.leaderId == 0 && refusal.args.term == success.args.term == 2
    && refusal.reply == AppendEntriesReply(0, false, 1)
    && success.reply == AppendEntriesReply(2, true, 2) && success.args.entries == [FIRST]
  }

  lemma NotCounted(sv: Server, args: AppendEntriesArgs)
    requires sv == Chief(2, [SENTINEL, FIRST], [2, 1, 2, 2], [1, 0, 0, 0])
    requires args.term == 2 && args.entries == [FIRST]
    ensures HandleReply(sv, 1, args, AppendEntriesReply(2, true, 2))
         == Chief(2, [SENTINEL, FIRST], [2, 2, 2, 2], [1, 1, 0, 0])
  {
    assert [2, 1, 2, 2][1 := 2] == [2, 2, 2, 2] && [1, 0, 0, 0][1 := 1] == [1, 1, 0, 0];
  }

  lemma AppendsItsOwn() returns (c: Cluster, refusal: Response, success: Response)
    ensures Reachable(SERVERS, c) && Shape(c) && |c.servers| == 4 && Replies(c, refusal, success)
    ensures c.servers[0] == Chief(2, [SENTINEL, FIRST, SECOND], [2, 2, 2, 2], [2, 1, 0, 0])
    ensures c.servers[1] == Heard(1, [SENTINEL, FIRST]) && c.servers[2] == Fresh(2)
  {
    c, refusal, success := CatchesUp();
    AppendsSecond(c.servers[0]);
    c := Started(SERVERS, c, 0, 20, 2);
  }

  lemma AppendsSecond(sv: Server)
    requires sv == Chief(2, [SENTINEL, FIRST], [2, 2, 2, 2], [1, 1, 0, 0])
    ensures Appended(sv, 20, 2) == Chief(2, [SENTINEL, FIRST, SECOND], [2, 2, 2, 2], [2, 1, 0, 0])
  {
    assert [1, 1, 0, 0][0 := 2] == [2, 1, 0, 0];
  }

  /** The leader offers its own entry to one more server, which refuses once. */
  lemma BacksOffAgain() returns (c: Cluster)
    ensures Reachable(SERVERS, c) && Shape(c) && |c.servers| == 4
    ensures c.servers[0] == Chief(2, [SENTINEL, FIRST, SECOND], [2, 2, 1, 2], [2, 1, 0, 0])
    ensures c.servers[2] == Heard(2, [SENTINEL])
  {
    var refusal, success, r;
    c, refusal, success := AppendsItsOwn();
    Refuses([SENTINEL, FIRST, SECOND], [2, 2, 2, 2], [2, 1, 0, 0], 2);
    c, r := RunRound(SERVERS, c, 0, 2);
    assert [2, 2, 2, 2][2 := 1] == [2, 2, 1, 2];
  }

  /** The reply of that server makes the leader commit the entry of term 1, with
      its own entry on two servers out of four. */
  lemma CommitsInheritedEntry() returns (c: Cluster, r: Response)
    ensures Reachable(SERVERS, c) && Shape(c) && Enabled(c, Receive(r)) && r.args.leaderId == 0
    ensures var sv := Next(c, Receive(r)).servers[0];
            && sv.role == Leader && c.servers[0].commitIndex == 0 < sv.commitIndex < |sv.log|
            && sv.log[sv.commitIndex].term < sv.currentTerm
  {
    var before := BacksOffAgain();
    Accepts([SENTINEL, FIRST, SECOND], [2, 2, 1, 2], [2, 1, 0, 0], 2);
    c, r := Ask(SERVERS, before, 0, 2);
    CountsTheInherited(c.servers[0], r.args);
  }

  lemma CountsTheInherited(sv: Server, args: AppendEntriesArgs)
    requires sv == Chief(2, [SENTINEL, FIRST, SECOND], [2, 2, 1, 2], [2, 1, 0, 0])
    requires args.term == 2 && args.entries == [FIRST, SECOND]
    ensures var after := HandleReply(sv, 2, args, AppendEntriesReply(2, true, 3));
            after.commitIndex == 1 && after.role == Leader && after.currentTerm == 2 && after.log == sv.log
  {
    var m: seq<nat> := [2, 1, 2, 0];
    assert sv.matchIndex[2 := 2] == m;
    HoldersOfFour(m, 1);
    HoldersOfFour(m, 2);
    assert ScanCommit(m, 0, 3) == 1;
  }

  /** Server 1 takes the second entry as well; two of four are no majority. */
  lemma TakesSecond() returns (c: Cluster, refusal: Response, success: Response)
    ensures Reachable(SERVERS, c) && Shape(c) && |c.servers| == 4 && Replies(c, refusal, success)
    ensures c.servers[0] == Chief(2, [SENTINEL, FIRST, SECOND], [2, 3, 2, 2], [2, 2, 0, 0])
  {
    var r;
    c, refusal, success := AppendsItsOwn();
    SecondAccepted(c.servers[0], c.servers[1]);
    c, r := RunRound(SERVERS, c, 0, 1);
  }

  lemma SecondAccepted(leader: Server, follower: Server)
    requires leader == Chief(2, [SENTINEL, FIRST, SECOND], [2, 2, 2, 2], [2, 1, 0, 0])
    requires follower == Heard(1, [SENTINEL, FIRST])
    ensures OneRound(leader, follower, 1).leader
         == Chief(2, [SENTINEL, FIRST, SECOND], [2, 3, 2, 2], [2, 2, 0, 0])
  {
    var m: seq<nat> := [2, 2, 0, 0];
    var args := MakeAppendEntriesArgs(leader, 1);
    assert args.entries == [SECOND];
    assert HandleAppendEntries(follower, args).reply == AppendEntriesReply(2, true, 3);
    assert leader.matchIndex[1 := 2] == m && leader.nextIndex[1 := 3] == [2, 3, 2, 2];
    HoldersOfFour(m, 1);
    assert ScanCommit(m, 0, 3) == 0;
  }

  /** The refusal of an earlier call comes late, and then the success of another: the
      leader takes back what it knows of server 1. */
  lemma LowersMatchIndex() returns (c: Cluster, r: Response)
    ensures Reachable(SERVERS, c) && Shape(c) && Enabled(c, Receive(r)) && r.args.leaderId == 0 && |c.servers| == 4
    ensures c.servers[0].matchIndex == [2, 2, 0, 0] && Next(c, Receive(r)).servers[0].matchIndex == [2, 1, 0, 0]
  {
    var refusal;
    c, refusal, r := TakesSecond();
    c := Received(SERVERS, c, refusal);
    assert [2, 3, 2, 2][1 := 1] == [2, 1, 2, 2];
    TakesBack(c.servers[0], r.args);
  }

  lemma TakesBack(sv: Server, args: AppendEntriesArgs)
    requires sv == Chief(2, [SENTINEL, FIRST, SECOND], [2, 1, 2, 2], [2, 2, 0, 0])
    requires args.term == 2 && args.entries == [FIRST]
    ensures HandleReply(sv, 1, args, AppendEntriesReply(2, true, 2)).matchIndex == [2, 1, 0, 0]
  {
    assert [2, 2, 0, 0][1 := 1] == [2, 1, 0, 0];
  }

  lemma HoldersOfFour(m: seq<nat>, i: nat)
    requires |m| == 4
    ensures Holders(m, i) == (if m[0] >= i then 1 else 0) + (if m[1] >= i then 1 else 0)
                           + (if m[2] >= i then 1 else 0) + (if m[3] >= i then 1 else 0)
  {
    assert m[..3][..2] == m[..2] && m[..2][..1] == m[..1] && m[..1][..0] == [];
    assert Holders(m[..1], i) == if m[0] >= i then 1 else 0;
    assert Holders(m[..2], i) == Holders(m[..1], i) + if m[1] >= i then 1 else 0;
    assert Holders(m[..3], i) == Holders(m[..2], i) + if m[2] >= i then 1 else 0;
  }
}
