/** The retry loop of one leader towards one follower, with nobody else moving:
    exactly when it ends, how many refusals it takes, and what it can erase. */
module RaftBackoff {
  import opened Basics
  import opened RaftState
  import opened RaftNode
  import opened RaftProtocol
  import opened RaftSafety

  /** Same term at the same index, same prefix. */
  ghost predicate Matching(a: Log, b: Log) {
    forall i | 0 <= i < |a| && i < |b| && a[i].term == b[i].term :: a[..i + 1] == b[..i + 1]
  }

  /** A log that holds entries of the leader's term holds no more than the leader. */
  ghost predicate NotAhead(leaderLog: Log, log: Log, term: nat) {
    |log| >= 1 && (log[|log| - 1].term == term ==> |log| <= |leaderLog|)
  }

  /** The number of maximal runs of equal terms in slots above `low` up to `i`. */
  function Runs(log: Log, low: nat, i: nat): nat
    requires i < |log|
  {
    if i <= low then 0
    else Runs(log, low, i - 1) + if i - 1 > low && log[i - 1].term == log[i].term then 0 else 1
  }

  /** Skipping below a run uses up exactly one run. */
  lemma {:induction false} SkippingUsesOneRun(log: Log, low: nat, i: nat)
    requires low < i < |log|
    ensures Runs(log, low, BelowRun(log, low, log[i].term, i)) == Runs(log, low, i) - 1
    ensures low <= BelowRun(log, low, log[i].term, i) < i
  {
    if i - 1 > low && log[i - 1].term == log[i].term {
      SkippingUsesOneRun(log, low, i - 1);
    }
  }

  lemma {:induction false} RunsMonotone(log: Log, low: nat, i: nat, j: nat)
    requires i <= j < |log|
    ensures Runs(log, low, i) <= Runs(log, low, j)
  {
    if i < j {
      RunsMonotone(log, low, i, j - 1);
    }
  }

  /** The index the leader tries next. */
  function Prev(next: nat, leaderLog: Log): int {
    Min(next - 1, |leaderLog| - 1)
  }

  /** How many refusals a follower can still give. */
  function Budget(leaderLog: Log, log: Log, commitIndex: nat, next: nat): nat
    requires |leaderLog| >= 1 && |log| >= 1 && next >= 1
  {
    if Prev(next, leaderLog) > |log| - 1 then 1 + Runs(log, commitIndex, |log| - 1)
    else Runs(log, commitIndex, Prev(next, leaderLog))
  }

  ghost predicate Pair(leader: Server, follower: Server, peer: nat) {
    && leader.WellFormed() && follower.WellFormed() && peer < |leader.nextIndex|
    && leader.role == Leader && follower.currentTerm <= leader.currentTerm
    && leader.nextIndex[peer] <= |leader.log|
    && Matching(leader.log, follower.log)
    && NotAhead(leader.log, follower.log, leader.currentTerm)
  }

  /** The lowest index a follower's refusals can bring the leader back to. */
  function Floor(leader: Server, follower: Server, peer: nat): int
    requires peer < |leader.nextIndex| && leader.nextIndex[peer] >= 1
  {
    Min(follower.commitIndex, Min(leader.nextIndex[peer] - 1, |follower.log| - 1))
  }

  /** The two logs have the same term there, and so agree up to there. */
  ghost predicate FloorAgrees(leader: Server, follower: Server, peer: nat)
    requires Pair(leader, follower, peer)
  {
    var k := Floor(leader, follower, peer);
    leader.log[k].term == follower.log[k].term
  }

  lemma FloorAgreesMeans(leader: Server, follower: Server, peer: nat)
    requires Pair(leader, follower, peer)
    ensures var k := Floor(leader, follower, peer);
            FloorAgrees(leader, follower, peer) <==> leader.log[..k + 1] == follower.log[..k + 1]
  {
    var k := Floor(leader, follower, peer);
    assert leader.log[..k + 1][k] == leader.log[k] && follower.log[..k + 1][k] == follower.log[k];
  }

  datatype Round = Round(leader: Server, follower: Server, success: bool)

  /** Send, handle, and handle the reply. */
  function OneRound(leader: Server, follower: Server, peer: nat): (r: Round)
    requires leader.WellFormed() && follower.WellFormed() && peer < |leader.nextIndex|
    ensures r.leader.WellFormed() && r.follower.WellFormed()
  {
    var args := MakeAppendEntriesArgs(leader, peer);
    var h := HandleAppendEntries(follower, args);
    Round(HandleReply(leader, peer, args, h.reply), h.server, h.reply.success)
  }

  ghost predicate Refused(leader: Server, follower: Server, peer: nat, r: Round)
    requires peer < |leader.nextIndex|
  {
    && !r.success
    && r.follower == follower.(currentTerm := leader.currentTerm, role := Follower)
    && |r.leader.nextIndex| == |leader.nextIndex|
    && r.leader == leader.(nextIndex := leader.nextIndex[peer := r.leader.nextIndex[peer]])
  }

  /** A round succeeds exactly when the logs have the same term where the leader
      starts, and then makes them equal. */
  lemma AcceptsIff(leader: Server, follower: Server, peer: nat)
    requires Pair(leader, follower, peer)
    ensures var r := OneRound(leader, follower, peer);
            var prev := leader.nextIndex[peer] - 1;
            && (r.success <==> prev < |follower.log| && leader.log[prev].term == follower.log[prev].term)
            && (r.success ==> r.follower.log == leader.log)
  {
    var prev := leader.nextIndex[peer] - 1;
    if prev < |follower.log| && leader.log[prev].term == follower.log[prev].term {
      assert leader.log[..prev + 1] == follower.log[..prev + 1];
    }
  }

  /** What a successful round leaves behind. The follower has the leader's log and has
      committed what either had. The leader knows so, unless it had nothing to send;
      nothing else changes but its commit index. */
  lemma SuccessfulRound(leader: Server, follower: Server, peer: nat)
    requires Pair(leader, follower, peer)
    ensures var r := OneRound(leader, follower, peer);
            r.success ==>
              && r.follower == follower.(currentTerm := leader.currentTerm, role := Follower, log := leader.log,
                                         commitIndex := Max(follower.commitIndex, leader.commitIndex))
              && Committed(leader) <= Committed(r.follower)
              && r.leader == leader.(nextIndex := leader.nextIndex[peer := |leader.log|],
                                     matchIndex := r.leader.matchIndex, commitIndex := r.leader.commitIndex)
              && r.leader.matchIndex == (if leader.nextIndex[peer] < |leader.log|
                                         then leader.matchIndex[peer := |leader.log| - 1] else leader.matchIndex)
  {
    AcceptsIff(leader, follower, peer);
    if leader.nextIndex[peer] == |leader.log| {
      assert leader.nextIndex[peer := |leader.log|] == leader.nextIndex;
    }
  }

  /** It counts afresh exactly when it ended with an entry of the leader's own term; the
      new commit index is then the largest index in the log held by a majority. */
  lemma SuccessCounts(leader: Server, follower: Server, peer: nat)
    requires Pair(leader, follower, peer) && OneRound(leader, follower, peer).success
    ensures var l := OneRound(leader, follower, peer).leader;
            var counted := leader.nextIndex[peer] < |leader.log| && leader.log[|leader.log| - 1].term == leader.currentTerm;
            && (!counted ==> l.commitIndex == leader.commitIndex)
            && (counted ==>
                  && l.commitIndex >= leader.commitIndex
                  && (l.commitIndex > leader.commitIndex ==> Majority(l.matchIndex, l.commitIndex))
                  && forall i | l.commitIndex < i <= |leader.log| :: !Majority(l.matchIndex, i))
  {
    var l := OneRound(leader, follower, peer).leader;
    var args := MakeAppendEntriesArgs(leader, peer);
    assert args.entries == leader.log[leader.nextIndex[peer]..];
    ScanFindsLargest(l.matchIndex, leader.commitIndex, |leader.log|);
  }

  /** What a refusal tells the leader: how long a short log is, or where the follower's
      run of the conflicting term begins, but nothing at or below its commit index. */
  lemma RefusalTells(leader: Server, follower: Server, peer: nat)
    requires Pair(leader, follower, peer) && !OneRound(leader, follower, peer).success
    ensures var r := OneRound(leader, follower, peer);
            var prev, next := leader.nextIndex[peer] - 1, r.leader.nextIndex[peer];
            && Refused(leader, follower, peer, r)
            && (prev >= |follower.log| ==> next == |follower.log|)
            && (prev < |follower.log| ==>
                  && 1 <= next <= prev + 1
                  && (forall i | next <= i <= prev ::
                        follower.log[i].term == follower.log[prev].term && i > follower.commitIndex)
                  && (next == 1 || next - 1 <= follower.commitIndex || follower.log[next - 1].term != follower.log[prev].term))
  {
    var prev := leader.nextIndex[peer] - 1;
    AcceptsIff(leader, follower, peer);
    if prev < |follower.log| {
      assert leader.log[..1] == [SENTINEL] == follower.log[..1];
    }
  }

  /** A follower in a later term is left as it is, and the leader steps down into that
      term with its log. */
  lemma LaterTermDeposes(leader: Server, follower: Server, peer: nat)
    requires leader.WellFormed() && follower.WellFormed() && peer < |leader.nextIndex|
    requires follower.currentTerm > leader.currentTerm
    ensures OneRound(leader, follower, peer)
         == Round(leader.(currentTerm := follower.currentTerm, role := Follower), follower, false)
  {
  }

  /** A message overtaken by a longer one of its term leaves the follower's log and
      commit index, and its refusal leaves the leader, as they were. */
  lemma LateIsHarmless(leader: Server, follower: Server, peer: nat, args: AppendEntriesArgs)
    requires leader.WellFormed() && follower.WellFormed() && peer < |leader.nextIndex|
    requires follower.currentTerm <= args.term && follower.currentTerm <= leader.currentTerm
    requires args.prevLogIndex < |follower.log| && PrevMatches(follower.log, args) && OutOfOrder(follower.log, args)
    ensures var h := HandleAppendEntries(follower, args);
            && h.server == follower.(currentTerm := args.term, role := Follower) && !h.reply.success
            && HandleReply(leader, peer, args, h.reply) == leader
  {
  }

  /** One round, where the logs agree at the floor: a refusal leaves the floor,
      lowers the next index strictly, to above the floor and above a commit
      index inside the log, and spends part of the budget; an acceptance makes
      the logs equal. */
  lemma RoundMakesProgress(leader: Server, follower: Server, peer: nat)
    requires Pair(leader, follower, peer) && FloorAgrees(leader, follower, peer)
    ensures var r := OneRound(leader, follower, peer);
            && r.leader.log == leader.log && r.leader.currentTerm == leader.currentTerm == r.follower.currentTerm
            && Pair(r.leader, r.follower, peer) && FloorAgrees(r.leader, r.follower, peer)
            && (r.success ==> r.follower.log == leader.log)
            && (!r.success ==>
                  && Refused(leader, follower, peer, r)
                  && Floor(leader, follower, peer) < r.leader.nextIndex[peer] < leader.nextIndex[peer]
                  && (follower.commitIndex < |follower.log| ==> follower.commitIndex < r.leader.nextIndex[peer])
                  && Budget(leader.log, follower.log, follower.commitIndex, r.leader.nextIndex[peer])
                     < Budget(leader.log, follower.log, follower.commitIndex, leader.nextIndex[peer]))
  {
    var args := MakeAppendEntriesArgs(leader, peer);
    var h := HandleAppendEntries(follower, args);
    var prev, c := args.prevLogIndex, follower.commitIndex;
    if prev > |follower.log| - 1 {
      assert Prev(h.reply.nexIndex, leader.log) == |follower.log| - 1;
    } else if follower.log[prev].term == leader.log[prev].term {
      assert leader.log[..prev + 1] == follower.log[..prev + 1];
      assert !OutOfOrder(follower.log, args);
    } else {
      SkippingUsesOneRun(follower.log, c, prev);
    }
  }

  /** A pair that does not agree at the floor; every round refuses and keeps it so. */
  ghost predicate Stuck(leader: Server, follower: Server, peer: nat) {
    Pair(leader, follower, peer) && !FloorAgrees(leader, follower, peer)
  }

  lemma StuckRound(leader: Server, follower: Server, peer: nat)
    requires Stuck(leader, follower, peer)
    ensures var r := OneRound(leader, follower, peer);
            && Refused(leader, follower, peer, r) && Stuck(r.leader, r.follower, peer)
            && Floor(r.leader, r.follower, peer) == Floor(leader, follower, peer)
  {
    var prev := leader.nextIndex[peer] - 1;
    if prev < |follower.log| {
      AgreesBelow(leader.log, follower.log, Floor(leader, follower, peer), prev);
    }
  }

  lemma AgreesBelow(a: Log, b: Log, k: nat, i: nat)
    requires Matching(a, b) && k <= i < |a| && i < |b|
    ensures a[i].term == b[i].term ==> a[k].term == b[k].term
  {
    if a[i].term == b[i].term {
      assert a[..i + 1][k] == b[..i + 1][k];
    }
  }

  /** What becomes of one call: it never reaches the follower, the follower
      handles it but the reply comes too late, or it is answered. */
  datatype Call = Lost | Unanswered | Answered

  /** One pass through the body of the send loop. */
  function Pass(leader: Server, follower: Server, peer: nat, call: Call): (r: Round)
    requires leader.WellFormed() && follower.WellFormed() && peer < |leader.nextIndex|
    ensures r.leader.WellFormed() && r.follower.WellFormed()
  {
    match call
    case Lost => Round(leader, follower, false)
    case Unanswered => Round(leader, OneRound(leader, follower, peer).follower, false)
    case Answered => OneRound(leader, follower, peer)
  }

  method Exchange(leader: Raft, follower: Raft, peer: nat, call: Call) returns (success: bool)
    requires leader != follower && leader.persister != follower.persister
    requires leader.Valid() && follower.Valid() && peer < |leader.nextIndex|
    modifies leader, leader.persister, follower, follower.persister
    ensures leader.Valid() && follower.Valid()
    ensures Round(leader.State(), follower.State(), success)
         == Pass(old(leader.State()), old(follower.State()), peer, call)
  {
    var args := leader.MakeArgs(peer);
    if call == Lost {
      return false;
    }
    var reply := follower.AppendEntries(args);
    if call == Unanswered {
      return false;
    }
    var again := leader.ReceiveReply(peer, args, reply);
    success := reply.success;
  }

  /** How far a pair has come from where it began: the follower already has the
      leader's log, or `refusals` of the budget are spent. */
  ghost predicate Advanced(l: Server, f: Server, leader: Server, follower: Server, peer: nat, refusals: nat)
    requires Pair(l, f, peer) && Pair(leader, follower, peer)
  {
    && FloorAgrees(leader, follower, peer)
    && refusals <= Budget(l.log, f.log, f.commitIndex, l.nextIndex[peer])
    && (|| (follower.log == l.log && follower.commitIndex == Max(f.commitIndex, l.commitIndex))
        || (&& follower.log == f.log && follower.commitIndex == f.commitIndex
            && refusals + Budget(l.log, f.log, f.commitIndex, leader.nextIndex[peer])
               <= Budget(l.log, f.log, f.commitIndex, l.nextIndex[peer])))
  }

  /** Where the loop is as long as it has not succeeded. */
  ghost predicate Trying(l: Server, f: Server, leader: Server, follower: Server, peer: nat, refusals: nat)
    requires Pair(l, f, peer)
  {
    && Pair(leader, follower, peer) && leader.log == l.log && leader.currentTerm == l.currentTerm
    && leader.commitIndex == l.commitIndex
    && (if FloorAgrees(l, f, peer) then Advanced(l, f, leader, follower, peer, refusals)
        else Stuck(leader, follower, peer))
  }

  /** Where it is once it has. */
  ghost predicate Reached(l: Server, f: Server, leader: Server, follower: Server, peer: nat, refusals: nat)
    requires Pair(l, f, peer)
  {
    && FloorAgrees(l, f, peer) && refusals <= Budget(l.log, f.log, f.commitIndex, l.nextIndex[peer])
    && follower.log == leader.log == l.log && follower.currentTerm == leader.currentTerm == l.currentTerm
    && follower.commitIndex == Max(f.commitIndex, l.commitIndex)
  }

  lemma PassAdvances(l: Server, f: Server, leader: Server, follower: Server, peer: nat, refusals: nat, call: Call)
    requires Pair(l, f, peer) && FloorAgrees(l, f, peer) && Trying(l, f, leader, follower, peer, refusals)
    ensures var r := Pass(leader, follower, peer, call);
            if r.success then Reached(l, f, r.leader, r.follower, peer, refusals)
            else Trying(l, f, r.leader, r.follower, peer, if call == Answered then refusals + 1 else refusals)
  {
    RoundMakesProgress(leader, follower, peer);
    AcceptsIff(leader, follower, peer);
    SuccessfulRound(leader, follower, peer);
  }

  lemma PassKeepsTrying(l: Server, f: Server, leader: Server, follower: Server, peer: nat, refusals: nat, call: Call)
    requires Pair(l, f, peer) && Trying(l, f, leader, follower, peer, refusals)
    ensures var r := Pass(leader, follower, peer, call);
            if r.success then Reached(l, f, r.leader, r.follower, peer, refusals)
            else Trying(l, f, r.leader, r.follower, peer, if call == Answered then refusals + 1 else refusals)
  {
    if FloorAgrees(l, f, peer) {
      PassAdvances(l, f, leader, follower, peer, refusals, call);
    } else {
      StuckRound(leader, follower, peer);
    }
  }

  method Attempt(leader: Raft, follower: Raft, peer: nat, call: Call, ghost l: Server, ghost f: Server, ghost refusals: nat)
      returns (success: bool)
    requires leader != follower && leader.persister != follower.persister && leader.Valid() && follower.Valid()
    requires Pair(l, f, peer) && Trying(l, f, leader.State(), follower.State(), peer, refusals)
    modifies leader, leader.persister, follower, follower.persister
    ensures leader.Valid() && follower.Valid() && (success ==> call == Answered)
    ensures if success then Reached(l, f, leader.State(), follower.State(), peer, refusals)
            else Trying(l, f, leader.State(), follower.State(), peer, if call == Answered then refusals + 1 else refusals)
  {
    PassKeepsTrying(l, f, leader.State(), follower.State(), peer, refusals, call);
    success := Exchange(leader, follower, peer, call);
  }

  function AnsweredCalls(calls: seq<Call>): nat {
    if calls == [] then 0 else AnsweredCalls(calls[..|calls| - 1]) + if calls[|calls| - 1] == Answered then 1 else 0
  }

  lemma AnswersSoFar(calls: seq<Call>, i: nat)
    requires i < |calls|
    ensures AnsweredCalls(calls[..i + 1]) == AnsweredCalls(calls[..i]) + if calls[i] == Answered then 1 else 0
  {
    assert calls[..i + 1][..i] == calls[..i];
  }

  /** The send loop until it is stopped, over any sequence of lost, late and
      answered calls. For a pair that agrees at the floor it succeeds as soon as
      more calls are answered than the budget has refusals, and then the logs
      are equal and the follower has committed what the leader had when it began;
      for a pair that does not, it never does. */
  method SendAppendEntries(leader: Raft, follower: Raft, peer: nat, calls: seq<Call>) returns (done: bool, refusals: nat)
    requires leader != follower && leader.persister != follower.persister
    requires leader.Valid() && follower.Valid() && Pair(leader.State(), follower.State(), peer)
    modifies leader, leader.persister, follower, follower.persister
    ensures leader.Valid() && follower.Valid()
    ensures leader.logEntries == old(leader.logEntries) && leader.currentTerm == old(leader.currentTerm)
    ensures done ==> follower.logEntries == leader.logEntries && follower.currentTerm == leader.currentTerm
    ensures done ==> follower.commitIndex == Max(old(follower.commitIndex), old(leader.commitIndex))
    ensures done ==> Committed(old(leader.State())) <= Committed(follower.State())
    ensures var l, f := old(leader.State()), old(follower.State());
            if FloorAgrees(l, f, peer) then
              && refusals <= Budget(l.log, f.log, f.commitIndex, l.nextIndex[peer])
              && (AnsweredCalls(calls) > Budget(l.log, f.log, f.commitIndex, l.nextIndex[peer]) ==> done)
            else !done
  {
    ghost var l, f := leader.State(), follower.State();
    done, refusals := false, 0;
    var i := 0;
    while i < |calls| && !done
      invariant 0 <= i <= |calls| && leader.Valid() && follower.Valid()
      invariant if done then Reached(l, f, leader.State(), follower.State(), peer, refusals)
                else refusals == AnsweredCalls(calls[..i]) && Trying(l, f, leader.State(), follower.State(), peer, refusals)
    {
      done := Attempt(leader, follower, peer, calls[i], l, f, refusals);
      if calls[i] == Answered && !done {
        refusals := refusals + 1;
      }
      AnswersSoFar(calls, i);
      i := i + 1;
    }
    assert calls[..|calls|] == calls;
  }

  /** The budget in the terms of the follower's log alone. */
  lemma BudgetBounded(leaderLog: Log, log: Log, commitIndex: nat, next: nat)
    requires |leaderLog| >= 1 && |log| >= 1 && next >= 1
    ensures Budget(leaderLog, log, commitIndex, next) <= 1 + Runs(log, commitIndex, |log| - 1)
  {
    if Prev(next, leaderLog) <= |log| - 1 {
      RunsMonotone(log, commitIndex, Prev(next, leaderLog), |log| - 1);
    }
  }

  // -------------------------------------------- when the loop does not end

  /** Successive rounds; the first element is the pair before any round. */
  ghost predicate Attempts(rounds: seq<Round>, peer: nat) {
    && |rounds| >= 1
    && (forall i | 0 <= i < |rounds| :: WellFormedRound(rounds[i], peer))
    && (forall i | 1 <= i < |rounds| :: rounds[i] == OneRound(rounds[i - 1].leader, rounds[i - 1].follower, peer))
  }

  ghost predicate WellFormedRound(r: Round, peer: nat) {
    r.leader.WellFormed() && r.follower.WellFormed() && peer < |r.leader.nextIndex|
  }

  /** A stuck pair stays stuck. */
  lemma {:induction false} StuckThroughout(rounds: seq<Round>, peer: nat, i: nat)
    requires Attempts(rounds, peer) && i < |rounds|
    requires Stuck(rounds[0].leader, rounds[0].follower, peer)
    ensures Stuck(rounds[i].leader, rounds[i].follower, peer)
    ensures i > 0 ==> !rounds[i].success
  {
    if i > 0 {
      StuckThroughout(rounds, peer, i - 1);
      StuckRound(rounds[i - 1].leader, rounds[i - 1].follower, peer);
    }
  }

  /** Such a pair: the follower has committed an entry of term 2 where the leader
      of term 3 has one of term 1. */
  lemma CommittedElsewhere(rounds: seq<Round>)
    requires Attempts(rounds, 1)
    requires rounds[0].leader == Server(0, Leader, 3, [SENTINEL, Entry(1, 10)], 0, [2, 2], [1, 0])
    requires rounds[0].follower == Server(1, Follower, 2, [SENTINEL, Entry(2, 20)], 1, [1, 1], [0, 0])
    ensures forall i | 0 < i < |rounds| :: !rounds[i].success
  {
    var l, f := rounds[0].leader, rounds[0].follower;
    assert l.log[..1] == [SENTINEL] == f.log[..1];
    forall i | 0 < i < |rounds| ensures !rounds[i].success {
      StuckThroughout(rounds, 1, i);
    }
  }

  function RoundBudget(r: Round, peer: nat): nat
    requires |r.leader.log| >= 1 && |r.follower.log| >= 1
    requires peer < |r.leader.nextIndex| && r.leader.nextIndex[peer] >= 1
  {
    Budget(r.leader.log, r.follower.log, r.follower.commitIndex, r.leader.nextIndex[peer])
  }

  ghost predicate Agreeing(r: Round, peer: nat) {
    Pair(r.leader, r.follower, peer) && FloorAgrees(r.leader, r.follower, peer)
  }

  lemma AgreeingRound(a: Round, b: Round, peer: nat)
    requires Agreeing(a, peer) && b == OneRound(a.leader, a.follower, peer) && !b.success
    ensures Agreeing(b, peer)
    ensures RoundBudget(b, peer) < RoundBudget(a, peer)
  {
    RoundMakesProgress(a.leader, a.follower, peer);
  }

  /** Pairs that agree, with a budget that shrinks from each to the next. */
  lemma {:induction false} BudgetRunsOut(rounds: seq<Round>, peer: nat, i: nat)
    requires Attempts(rounds, peer) && i < |rounds|
    requires Agreeing(rounds[0], peer)
    requires forall j | 0 < j <= i :: !rounds[j].success
    ensures Agreeing(rounds[i], peer)
    ensures RoundBudget(rounds[i], peer) + i <= RoundBudget(rounds[0], peer)
  {
    if i > 0 {
      BudgetRunsOut(rounds, peer, i - 1);
      var a, b := rounds[i - 1], rounds[i];
      assert b == OneRound(a.leader, a.follower, peer) && !b.success;
      AgreeingRound(a, b, peer);
    }
  }

  /** Given more rounds than the budget, one of them succeeds exactly when the two
      logs agree at the floor. */
  lemma BackoffEndsIff(rounds: seq<Round>, peer: nat)
    requires Attempts(rounds, peer) && Pair(rounds[0].leader, rounds[0].follower, peer)
    requires |rounds| > 1 + RoundBudget(rounds[0], peer)
    ensures (exists i | 0 < i < |rounds| :: rounds[i].success)
        <==> FloorAgrees(rounds[0].leader, rounds[0].follower, peer)
  {
    if Agreeing(rounds[0], peer) {
      if forall i | 0 < i < |rounds| :: !rounds[i].success {
        BudgetRunsOut(rounds, peer, |rounds| - 1);
      }
    } else {
      forall i | 0 < i < |rounds| ensures !rounds[i].success {
        StuckThroughout(rounds, peer, i);
      }
    }
  }

  // ----------------------------------------- what an acceptance can erase

  lemma CommittedIn(leaderLog: Log, log: Log, c: nat, prev: nat)
    requires Matching(leaderLog, log) && c < |log|
    requires prev < |leaderLog| && prev < |log| && leaderLog[prev].term == log[prev].term
    ensures log[..c + 1] <= leaderLog <==> c <= prev || (c < |leaderLog| && leaderLog[c].term == log[c].term)
  {
    if c <= prev {
      assert log[..c + 1] == log[..prev + 1][..c + 1] == leaderLog[..c + 1];
    } else if log[..c + 1] <= leaderLog {
      assert log[..c + 1][c] == leaderLog[c];
    }
  }

  /** A message of a current term starts below the last entry the server has
      committed, at an entry it shares, conveys a log without that last one, and is
      not out of order. */
  ghost predicate MissesCommitted(sv: Server, args: AppendEntriesArgs, sent: Log)
    requires |sv.log| >= 1
  {
    var prev, last := args.prevLogIndex, Min(sv.commitIndex, |sv.log| - 1);
    && sv.currentTerm <= args.term && !OutOfOrder(sv.log, args)
    && prev < last && sv.log[prev].term == args.prevLogTerm
    && (last >= |sent| || sent[last].term != sv.log[last].term)
  }

  /** `args` conveys the log `sent`, which matches the server's. */
  ghost predicate Conveys(sv: Server, args: AppendEntriesArgs, sent: Log) {
    && sv.WellFormed() && Matching(sent, sv.log) && args.prevLogIndex < |sent| && sent[0] == SENTINEL
    && args.prevLogTerm == sent[args.prevLogIndex].term
    && sent[..args.prevLogIndex + 1] + args.entries == sent
  }

  lemma HandlingErasesIff(sv: Server, args: AppendEntriesArgs, sent: Log)
    requires Conveys(sv, args, sent)
    ensures !(Committed(sv) <= HandleAppendEntries(sv, args).server.log) <==> MissesCommitted(sv, args, sent)
  {
    var prev, last := args.prevLogIndex, Min(sv.commitIndex, |sv.log| - 1);
    if prev < |sv.log| && sv.log[prev].term == args.prevLogTerm {
      assert sv.log[..prev + 1] == sent[..prev + 1];
      CommittedIn(sent, sv.log, last, prev);
    }
  }

  lemma RequestConveys(n: nat, c: Cluster, m: Request)
    requires Reachable(n, c) && m in c.requests && m.dst < |c.servers| == |c.disks|
    ensures Conveys(c.servers[m.dst], m.args, m.sentLog)
  {
    ReachableInv(n, c);
    assert RequestOk(m, |c.servers|, c.reigns);
    PresentBacked(c, m.sentLog);
    var a, b := m.sentLog, c.servers[m.dst].log;
    forall i | 0 <= i < |a| && i < |b| && a[i].term == b[i].term ensures a[..i + 1] == b[..i + 1] {
      LogMatching(n, c, a, b, i);
    }
  }

  /** In every reachable state, a delivery, however late or often repeated, erases an
      entry the receiver has committed exactly when the message misses it. */
  lemma DeliveryErasesIff(n: nat, c: Cluster, m: Request)
    requires Reachable(n, c) && Shape(c) && Enabled(c, Deliver(m))
    ensures !(Committed(c.servers[m.dst]) <= Next(c, Deliver(m)).servers[m.dst].log)
        <==> MissesCommitted(c.servers[m.dst], m.args, m.sentLog)
  {
    RequestConveys(n, c, m);
    HandlingErasesIff(c.servers[m.dst], m.args, m.sentLog);
  }

  /** For a round between a pair the message is always current and in order. */
  lemma ErasesCommittedIff(leader: Server, follower: Server, peer: nat)
    requires Pair(leader, follower, peer)
    ensures var r := OneRound(leader, follower, peer);
            var prev, last := leader.nextIndex[peer] - 1, Min(follower.commitIndex, |follower.log| - 1);
            !(Committed(follower) <= r.follower.log)
            <==> (&& prev < last && leader.log[prev].term == follower.log[prev].term
                  && (last >= |leader.log| || leader.log[last].term != follower.log[last].term))
  {
    PairConveys(leader, follower, peer);
    HandlingErasesIff(follower, MakeAppendEntriesArgs(leader, peer), leader.log);
  }

  lemma PairConveys(leader: Server, follower: Server, peer: nat)
    requires Pair(leader, follower, peer)
    ensures var args := MakeAppendEntriesArgs(leader, peer);
            && Conveys(follower, args, leader.log) && !OutOfOrder(follower.log, args)
            && args.prevLogIndex == leader.nextIndex[peer] - 1 && args.term == leader.currentTerm
  {
  }

  /** A follower that committed two entries meets a leader of a later term with only
      the first: the first message is accepted, the second entry is gone, and the
      commit index lies outside the log. */
  lemma ErasesCommitted()
    ensures var leader := Server(0, Leader, 3, [SENTINEL, Entry(1, 10)], 0, [2, 2], [1, 0]);
            var follower := Server(1, Follower, 2, [SENTINEL, Entry(1, 10), Entry(2, 20)], 2, [1, 1], [0, 0]);
            var r := OneRound(leader, follower, 1);
            && Pair(leader, follower, 1) && r.success
            && r.follower.log == [SENTINEL, Entry(1, 10)] && r.follower.commitIndex == 2
  {
    var leader := Server(0, Leader, 3, [SENTINEL, Entry(1, 10)], 0, [2, 2], [1, 0]);
    var follower := Server(1, Follower, 2, [SENTINEL, Entry(1, 10), Entry(2, 20)], 2, [1, 1], [0, 0]);
    assert leader.log[..1] == follower.log[..1] && leader.log[..2] == follower.log[..2];
  }

  /** In every reachable state, a leader and any server in no later term are a pair
      as required above. */
  lemma ReachablePair(n: nat, c: Cluster, p: nat, q: nat)
    requires Reachable(n, c) && p < |c.servers| && q < |c.servers|
    requires c.servers[p].role == Leader && c.servers[q].currentTerm <= c.servers[p].currentTerm
    ensures Pair(c.servers[p], c.servers[q], q)
  {
    ReachableInv(n, c);
    var a, b := c.servers[p].log, c.servers[q].log;
    forall i | 0 <= i < |a| && i < |b| && a[i].term == b[i].term ensures a[..i + 1] == b[..i + 1] {
      LogMatching(n, c, a, b, i);
    }
    assert ServerOk(c.servers[p], c.synced[p], c.reigns);
    assert ServerOk(c.servers[q], c.synced[q], c.reigns);
    assert ReignOk(c.servers[p].currentTerm, c.reigns[c.servers[p].currentTerm], |c.servers|, c.reigns);
    assert b[|b| - 1].term == b[|b| - 1].term;
  }

  // ------------------------------------------- committing by counting alone

  /** A leader's count moves the commit index onto an entry of its own term
      exactly when some entry of its own term has a majority: the count itself
      looks at no terms (compare section 5.4.2 of the extended Raft paper). */
  lemma CommittedTermIffMajorityInOffice(n: nat, c: Cluster, r: Response)
    requires Reachable(n, c) && Shape(c) && Enabled(c, Receive(r))
    requires Next(c, Receive(r)).servers[r.args.leaderId].commitIndex > c.servers[r.args.leaderId].commitIndex
    ensures var sv := Next(c, Receive(r)).servers[r.args.leaderId];
            && sv.currentTerm in c.reigns && sv.commitIndex < |sv.log|
            && (sv.log[sv.commitIndex].term == sv.currentTerm
                <==> Majority(sv.matchIndex, c.reigns[sv.currentTerm].base))
  {
    var p := r.args.leaderId;
    ReachableInv(n, c);
    ReceiveMatch(c, r);
    var sv := Next(c, Receive(r)).servers[p];
    assert ServerOk(c.servers[p], c.synced[p], c.reigns);
    assert ReignOk(sv.currentTerm, c.reigns[sv.currentTerm], |c.servers|, c.reigns);
    CountedTerm(sv, c.servers[p].commitIndex, c.reigns[sv.currentTerm].base);
  }

  lemma CountedTerm(sv: Server, from: nat, base: nat)
    requires sv.commitIndex == ScanCommit(sv.matchIndex, from, |sv.log|) > from
    requires sv.commitIndex < |sv.log| && 1 <= base <= |sv.log|
    requires forall i | 0 <= i < |sv.log| :: sv.log[i].term == sv.currentTerm <==> base <= i
    ensures sv.log[sv.commitIndex].term == sv.currentTerm <==> Majority(sv.matchIndex, base)
  {
    ScanFindsLargest(sv.matchIndex, from, |sv.log|);
    if base <= sv.commitIndex {
      HoldersMonotone(sv.matchIndex, base, sv.commitIndex);
    }
  }
}
