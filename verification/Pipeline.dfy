/** Recommendations: among the videos liked by those a user subscribes to, the
    best-scored ones. The two services answer in batches and refuse a batch that
    is empty, too large or, for videos, holds an id twice; the pipeline splits
    and deduplicates so that only the batch size can ever be at fault. */
module Pipeline {
  import opened Basics
  import opened Ranker

  datatype UserInfo = UserInfo(subscribedTo: seq<nat>, likedVideos: seq<nat>, coefficients: Coefficients)

  datatype VideoInfo = VideoInfo(videoId: nat, coefficients: Coefficients)

  datatype Refusal = Injected | EmptyRequest | TooLarge | DuplicateIds | Unknown | Unavailable

  datatype Result<+T> = Ok(value: T) | Err(error: Refusal)

  /** Keeps one occurrence of every id, and is therefore also a test for
      repeated ids. */
  method DeduplicateIds(ids: seq<nat>) returns (deduped: seq<nat>)
    ensures Distinct(deduped) && forall id :: id in deduped <==> id in ids
    ensures |deduped| == |ids| <==> Distinct(ids)
  {
    deduped := [];
    var seen: set<nat> := {};
    for i := 0 to |ids|
      invariant Distinct(deduped) && (forall id :: id in deduped <==> id in ids[..i])
      invariant seen == set id | id in ids[..i]
      invariant |deduped| <= i && (|deduped| == i ==> deduped == ids[..i])
      invariant |deduped| < i ==> !Distinct(ids)
    {
      assert ids[..i + 1] == ids[..i] + [ids[i]];
      if ids[i] !in seen {
        seen := seen + {ids[i]};
        deduped := deduped + [ids[i]];
      } else {
        var j :| 0 <= j < i && ids[..i][j] == ids[i];
        assert ids[j] == ids[i];
      }
    }
    assert ids[..|ids|] == ids;
  }

  // --------------------------------------------------------- the services

  datatype Services = Services(
    users: map<nat, UserInfo>,
    videos: map<nat, VideoInfo>,
    maxUsers: int,
    maxVideos: int)
  {
    /** Every video is filed under its own id. */
    ghost predicate Catalogued() {
      forall id | id in videos :: videos[id].videoId == id
    }

    ghost predicate KnownUsers(ids: seq<nat>) {
      forall id | id in ids :: id in users
    }

    ghost predicate KnownVideos(ids: seq<nat>) {
      forall id | id in ids :: id in videos
    }
  }

  method GetUser(sv: Services, ids: seq<nat>, injected: bool) returns (r: Result<seq<UserInfo>>)
    ensures r.Ok? <==> !injected && 0 < |ids| <= sv.maxUsers && sv.KnownUsers(ids)
    ensures r.Ok? ==> |r.value| == |ids| && forall i | 0 <= i < |ids| :: r.value[i] == sv.users[ids[i]]
    ensures r.Err? ==> r.error == if injected then Injected else if ids == [] then EmptyRequest
                                  else if |ids| > sv.maxUsers then TooLarge else Unknown
  {
    if injected {
      return Err(Injected);
    }
    if |ids| == 0 {
      return Err(EmptyRequest);
    }
    if |ids| > sv.maxUsers {
      return Err(TooLarge);
    }
    var infos: seq<UserInfo> := [];
    for i := 0 to |ids|
      invariant |infos| == i && forall j | 0 <= j < i :: ids[j] in sv.users && infos[j] == sv.users[ids[j]]
    {
      if ids[i] !in sv.users {
        return Err(Unknown);
      }
      infos := infos + [sv.users[ids[i]]];
    }
    r := Ok(infos);
  }

  /** The infos of all the ids, in order. */
  ghost predicate InfosOf(sv: Services, ids: seq<nat>, infos: seq<VideoInfo>) {
    |infos| == |ids| && forall i | 0 <= i < |ids| :: ids[i] in sv.videos && infos[i] == sv.videos[ids[i]]
  }

  method GetVideo(sv: Services, ids: seq<nat>, injected: bool) returns (r: Result<seq<VideoInfo>>)
    ensures r.Ok? <==> !injected && 0 < |ids| <= sv.maxVideos && Distinct(ids) && sv.KnownVideos(ids)
    ensures r.Ok? ==> InfosOf(sv, ids, r.value)
    ensures r.Err? ==> r.error == if injected then Injected else if ids == [] then EmptyRequest
                                  else if |ids| > sv.maxVideos then TooLarge
                                  else if !Distinct(ids) then DuplicateIds else Unknown
  {
    if injected {
      return Err(Injected);
    }
    if |ids| == 0 {
      return Err(EmptyRequest);
    }
    if |ids| > sv.maxVideos {
      return Err(TooLarge);
    }
    var deduped := DeduplicateIds(ids);
    if |deduped| != |ids| {
      return Err(DuplicateIds);
    }
    var infos: seq<VideoInfo> := [];
    for i := 0 to |ids|
      invariant |infos| == i && forall j | 0 <= j < i :: ids[j] in sv.videos && infos[j] == sv.videos[ids[j]]
    {
      if ids[i] !in sv.videos {
        return Err(Unknown);
      }
      infos := infos + [sv.videos[ids[i]]];
    }
    r := Ok(infos);
  }

  // ------------------------------------------------------------- batching

  /** Which calls the failure injector makes fail: the first call, and the calls
      of the two batch loops by the offset they are made at. */
  datatype Faults = Faults(first: bool, users: nat -> bool, videos: nat -> bool)

  /** Whether batches of `batch` out of `n` ids are neither empty nor above a
      service's bound. */
  predicate Fits(n: nat, batch: nat, bound: int) {
    n == 0 || 0 < Min(batch, n) <= bound
  }

  /** No batch out of `n` ids is made to fail. */
  ghost predicate Spared(fault: nat -> bool, n: nat, batch: nat) {
    forall k: nat :: k * batch < n ==> !fault(k * batch)
  }

  /** Everything liked by any of the users. */
  ghost function LikedBy(sv: Services, ids: seq<nat>): set<nat> {
    set id, v | id in ids && id in sv.users && v in sv.users[id].likedVideos :: v
  }

  method AllLiked(infos: seq<UserInfo>) returns (liked: seq<nat>)
    ensures forall v :: v in liked <==> exists i :: 0 <= i < |infos| && v in infos[i].likedVideos
  {
    liked := [];
    for i := 0 to |infos|
      invariant forall v :: v in liked <==> exists j :: 0 <= j < i && v in infos[j].likedVideos
    {
      liked := liked + infos[i].likedVideos;
    }
  }

  lemma LikedUnion(sv: Services, done: seq<nat>, part: seq<nat>, infos: seq<UserInfo>)
    requires sv.KnownUsers(part) && |infos| == |part|
    requires forall i | 0 <= i < |part| :: infos[i] == sv.users[part[i]]
    ensures forall v :: v in LikedBy(sv, done + part) <==>
              v in LikedBy(sv, done) || exists i :: 0 <= i < |infos| && v in infos[i].likedVideos
  {
    forall v
      ensures v in LikedBy(sv, part) <==> exists i :: 0 <= i < |infos| && v in infos[i].likedVideos
    {
      if v in LikedBy(sv, part) {
        var id :| id in part && id in sv.users && v in sv.users[id].likedVideos;
        var i :| 0 <= i < |part| && part[i] == id;
        assert v in infos[i].likedVideos;
      }
      if i :| 0 <= i < |infos| && v in infos[i].likedVideos {
        assert part[i] in part;
      }
    }
    assert LikedBy(sv, done + part) == LikedBy(sv, done) + LikedBy(sv, part);
  }

  /** The videos liked by the users asked for, whatever the batch size. It succeeds
      exactly when all are known, the batches fit and none is made to fail. */
  method FetchCandidates(sv: Services, ids: seq<nat>, batch: nat, faults: Faults) returns (r: Result<seq<nat>>)
    ensures r.Ok? <==> sv.KnownUsers(ids) && Fits(|ids|, batch, sv.maxUsers) && Spared(faults.users, |ids|, batch)
    ensures r.Ok? ==> forall v :: v in r.value <==> v in LikedBy(sv, ids)
    ensures r.Err? ==> || (r.error == Injected && !Spared(faults.users, |ids|, batch))
                       || (r.error == Unknown && !sv.KnownUsers(ids))
                       || (r.error == TooLarge && !Fits(|ids|, batch, sv.maxUsers))
                       || (r.error == EmptyRequest && batch == 0 && ids != [])
  {
    var offset: nat := 0;
    var candidates: seq<nat> := [];
    ghost var calls: nat := 0;
    while offset < |ids|
      invariant offset == calls * batch && forall k: nat :: k < calls ==> !faults.users(k * batch)
      invariant sv.KnownUsers(ids[..Min(offset, |ids|)])
      invariant offset > 0 ==> batch > 0 && Fits(|ids|, batch, sv.maxUsers)
      invariant forall v :: v in candidates <==> v in LikedBy(sv, ids[..Min(offset, |ids|)])
    {
      var upper := Min(offset + batch, |ids|);
      var part := ids[offset..upper];
      var answer := GetUser(sv, part, faults.users(offset));
      if answer.Err? {
        return Err(answer.error);
      }
      var liked := AllLiked(answer.value);
      assert ids[..upper] == ids[..offset] + part;
      LikedUnion(sv, ids[..offset], part, answer.value);
      candidates := candidates + liked;
      offset := offset + batch;
      calls := calls + 1;
    }
    AllSpared(faults.users, |ids|, batch, calls);
    assert ids[..|ids|] == ids;
    r := Ok(candidates);
  }

  /** The infos of distinct ids, in order. Every failure is reported as the same
      error; `cause` is what the service said. It is never a repeated id, nor an
      empty batch unless the batch size is 0. */
  method FetchVideos(sv: Services, ids: seq<nat>, batch: nat, faults: Faults)
      returns (r: Result<seq<VideoInfo>>, ghost cause: Refusal)
    requires Distinct(ids)
    ensures r.Ok? <==> sv.KnownVideos(ids) && Fits(|ids|, batch, sv.maxVideos) && Spared(faults.videos, |ids|, batch)
    ensures r.Ok? ==> InfosOf(sv, ids, r.value)
    ensures r.Err? ==> r.error == Unavailable
    ensures r.Err? ==> || (cause == Injected && !Spared(faults.videos, |ids|, batch))
                       || (cause == Unknown && !sv.KnownVideos(ids))
                       || (cause == TooLarge && !Fits(|ids|, batch, sv.maxVideos))
                       || (cause == EmptyRequest && batch == 0 && ids != [])
  {
    var offset: nat := 0;
    var infos: seq<VideoInfo> := [];
    ghost var calls: nat := 0;
    while offset < |ids|
      invariant offset == calls * batch && forall k: nat :: k < calls ==> !faults.videos(k * batch)
      invariant InfosOf(sv, ids[..Min(offset, |ids|)], infos)
      invariant offset > 0 ==> batch > 0 && Fits(|ids|, batch, sv.maxVideos)
    {
      var upper := Min(offset + batch, |ids|);
      var part := ids[offset..upper];
      var answer := GetVideo(sv, part, faults.videos(offset));
      if answer.Err? {
        return Err(Unavailable), answer.error;
      }
      assert ids[..upper] == ids[..offset] + part;
      InfosJoin(sv, ids[..offset], infos, part, answer.value);
      infos := infos + answer.value;
      offset := offset + batch;
      calls := calls + 1;
    }
    AllSpared(faults.videos, |ids|, batch, calls);
    assert ids[..|ids|] == ids;
    return Ok(infos), Unavailable;
  }

  /** Once the offset is past the end, every batch has been asked for. */
  lemma AllSpared(fault: nat -> bool, n: nat, batch: nat, calls: nat)
    requires n <= calls * batch && forall k: nat :: k < calls ==> !fault(k * batch)
    ensures Spared(fault, n, batch)
  {
    forall k: nat | k * batch < n ensures !fault(k * batch) {
      assert k * batch == calls * batch + (k - calls) * batch;
      assert k >= calls ==> (k - calls) * batch >= 0;
    }
  }

  lemma InfosJoin(sv: Services, ids: seq<nat>, infos: seq<VideoInfo>, part: seq<nat>, more: seq<VideoInfo>)
    requires InfosOf(sv, ids, infos) && InfosOf(sv, part, more)
    ensures InfosOf(sv, ids + part, infos + more)
  {
  }

  // -------------------------------------------------------------- ranking

  datatype RankPair = RankPair(video: VideoInfo, score: nat)

  ghost predicate Descending(pairs: seq<RankPair>) {
    forall i, j | 0 <= i < j < |pairs| :: pairs[i].score >= pairs[j].score
  }

  ghost function ScoreOf(hash: uint64 -> nat, user: Coefficients, video: VideoInfo): nat {
    hash(Dot(user, video.coefficients))
  }

  method Rank(infos: seq<VideoInfo>, user: Coefficients, hash: uint64 -> nat) returns (pairs: seq<RankPair>)
    ensures |pairs| == |infos|
    ensures forall i | 0 <= i < |infos| :: pairs[i] == RankPair(infos[i], ScoreOf(hash, user, infos[i]))
  {
    pairs := [];
    for i := 0 to |infos|
      invariant |pairs| == i
      invariant forall j | 0 <= j < i :: pairs[j] == RankPair(infos[j], ScoreOf(hash, user, infos[j]))
    {
      var dot := DotProduct(user, infos[i].coefficients);
      pairs := pairs + [RankPair(infos[i], hash(dot))];
    }
  }

  /** Stands in for the library's unstable sort: callers know only that the
      result is a permutation with descending scores. */
  method SortByScore(pairs: seq<RankPair>) returns (sorted: seq<RankPair>)
    ensures Descending(sorted) && multiset(sorted) == multiset(pairs)
  {
    sorted := [];
    for i := 0 to |pairs|
      invariant Descending(sorted) && multiset(sorted) == multiset(pairs[..i])
    {
      assert pairs[..i + 1] == pairs[..i] + [pairs[i]];
      sorted := Insert(sorted, pairs[i]);
    }
    assert pairs[..|pairs|] == pairs;
  }

  method Insert(sorted: seq<RankPair>, p: RankPair) returns (grown: seq<RankPair>)
    requires Descending(sorted)
    ensures Descending(grown) && multiset(grown) == multiset(sorted) + multiset{p}
  {
    var k := 0;
    while k < |sorted| && sorted[k].score >= p.score
      invariant k <= |sorted| && forall i | 0 <= i < k :: sorted[i].score >= p.score
    {
      k := k + 1;
    }
    grown := sorted[..k] + [p] + sorted[k..];
    InsertionSorted(sorted, p, k);
    InsertionCounts(sorted, p, k);
  }

  lemma InsertionSorted(sorted: seq<RankPair>, p: RankPair, k: nat)
    requires Descending(sorted) && k <= |sorted|
    requires forall i | 0 <= i < k :: sorted[i].score >= p.score
    requires k < |sorted| ==> sorted[k].score < p.score
    ensures Descending(sorted[..k] + [p] + sorted[k..])
  {
    var grown := sorted[..k] + [p] + sorted[k..];
    forall i, j | 0 <= i < j < |grown| ensures grown[i].score >= grown[j].score {
      assert grown[i] == if i < k then sorted[i] else if i == k then p else sorted[i - 1];
      assert grown[j] == if j < k then sorted[j] else if j == k then p else sorted[j - 1];
    }
  }

  lemma InsertionCounts(sorted: seq<RankPair>, p: RankPair, k: nat)
    requires k <= |sorted|
    ensures multiset(sorted[..k] + [p] + sorted[k..]) == multiset(sorted) + multiset{p}
  {
    assert sorted == sorted[..k] + sorted[k..];
  }

  ghost predicate DistinctVideos(pairs: seq<RankPair>) {
    forall i, j | 0 <= i < j < |pairs| :: pairs[i].video.videoId != pairs[j].video.videoId
  }

  lemma TwiceCounted(pairs: seq<RankPair>, i: nat, j: nat)
    requires i < j < |pairs| && pairs[i] == pairs[j]
    ensures multiset(pairs)[pairs[i]] >= 2
  {
    assert pairs == pairs[..j] + [pairs[j]] + pairs[j + 1..];
    assert pairs[..j][i] == pairs[i];
    assert multiset(pairs[..j])[pairs[i]] >= 1;
  }

  lemma OnceCounted(pairs: seq<RankPair>, i: nat)
    requires DistinctVideos(pairs) && i < |pairs|
    ensures multiset(pairs)[pairs[i]] == 1
  {
    assert pairs == pairs[..i] + [pairs[i]] + pairs[i + 1..];
    assert pairs[i] !in pairs[..i] && pairs[i] !in pairs[i + 1..];
  }

  /** A permutation of pairs with distinct videos has distinct videos. */
  lemma PermutationKeepsDistinct(pairs: seq<RankPair>, sorted: seq<RankPair>)
    requires DistinctVideos(pairs) && multiset(sorted) == multiset(pairs)
    ensures DistinctVideos(sorted)
  {
    forall i, j | 0 <= i < j < |sorted| && sorted[i].video.videoId == sorted[j].video.videoId ensures false {
      assert sorted[i] in multiset(pairs) && sorted[j] in multiset(pairs);
      var a :| 0 <= a < |pairs| && pairs[a] == sorted[i];
      var b :| 0 <= b < |pairs| && pairs[b] == sorted[j];
      TwiceCounted(sorted, i, j);
      OnceCounted(pairs, a);
    }
  }

  // ------------------------------------------------------------- requests

  /** The best `limit` of a set of videos: genuine infos, distinct, best first,
      as many as asked for, and none left out that scores higher. */
  ghost predicate BestOf(videos: seq<VideoInfo>, ids: set<nat>, limit: int, sv: Services, hash: uint64 -> nat, user: Coefficients) {
    && (forall v | v in videos :: v.videoId in ids && v.videoId in sv.videos && v == sv.videos[v.videoId])
    && (forall i, j | 0 <= i < j < |videos| :: videos[i].videoId != videos[j].videoId)
    && (forall i, j | 0 <= i < j < |videos| :: ScoreOf(hash, user, videos[i]) >= ScoreOf(hash, user, videos[j]))
    && |videos| == (if limit < |ids| then (if limit < 0 then 0 else limit) else |ids|)
    && (forall id, v | id in ids && id in sv.videos && sv.videos[id] !in videos && v in videos ::
          ScoreOf(hash, user, v) >= ScoreOf(hash, user, sv.videos[id]))
  }

  method TakeVideos(sorted: seq<RankPair>, count: int) returns (videos: seq<VideoInfo>)
    requires count <= |sorted|
    ensures |videos| == if count < 0 then 0 else count
    ensures forall i | 0 <= i < |videos| :: videos[i] == sorted[i].video
  {
    videos := [];
    var i := 0;
    while i < count
      invariant |videos| == i && (i == 0 || i <= count)
      invariant forall j | 0 <= j < i :: videos[j] == sorted[j].video
    {
      videos := videos + [sorted[i].video];
      i := i + 1;
    }
  }

  /** `pairs` are the catalogued videos `ids` with their scores. */
  ghost predicate Scored(pairs: seq<RankPair>, ids: seq<nat>, sv: Services, hash: uint64 -> nat, user: Coefficients) {
    && |pairs| == |ids|
    && forall i | 0 <= i < |ids| :: ids[i] in sv.videos
         && pairs[i] == RankPair(sv.videos[ids[i]], ScoreOf(hash, user, sv.videos[ids[i]]))
  }

  lemma SortedPair(k: nat, ids: seq<nat>, pairs: seq<RankPair>, sorted: seq<RankPair>,
                   sv: Services, hash: uint64 -> nat, user: Coefficients)
    requires sv.Catalogued() && Scored(pairs, ids, sv, hash, user)
    requires multiset(sorted) == multiset(pairs) && k < |sorted|
    ensures var v := sorted[k].video;
            v.videoId in ids && v.videoId in sv.videos && v == sv.videos[v.videoId]
            && sorted[k].score == ScoreOf(hash, user, v)
  {
    assert sorted[k] in multiset(pairs);
    var a :| 0 <= a < |pairs| && pairs[a] == sorted[k];
  }

  lemma LeftOutScoresLess(id: nat, i: nat, n: nat, ids: seq<nat>, pairs: seq<RankPair>, sorted: seq<RankPair>,
                          sv: Services, hash: uint64 -> nat, user: Coefficients)
    requires Scored(pairs, ids, sv, hash, user) && id in ids
    requires Descending(sorted) && multiset(sorted) == multiset(pairs) && i < n <= |sorted|
    requires forall j | 0 <= j < n :: sorted[j].video != sv.videos[id]
    ensures sorted[i].score >= ScoreOf(hash, user, sv.videos[id])
  {
    var a :| 0 <= a < |ids| && ids[a] == id;
    assert pairs[a] in multiset(sorted);
    var k :| 0 <= k < |sorted| && sorted[k] == pairs[a];
  }

  /** The head of any descending permutation of the scored candidates is their
      best selection. */
  lemma HeadIsBest(ids: seq<nat>, pairs: seq<RankPair>, sorted: seq<RankPair>, videos: seq<VideoInfo>,
                   limit: int, sv: Services, hash: uint64 -> nat, user: Coefficients)
    requires sv.Catalogued() && Distinct(ids) && Scored(pairs, ids, sv, hash, user)
    requires Descending(sorted) && multiset(sorted) == multiset(pairs)
    requires |videos| == if limit < |ids| then (if limit < 0 then 0 else limit) else |ids|
    requires |videos| <= |sorted| && forall i | 0 <= i < |videos| :: videos[i] == sorted[i].video
    ensures BestOf(videos, Elements(ids), limit, sv, hash, user)
  {
    assert DistinctVideos(pairs);
    PermutationKeepsDistinct(pairs, sorted);
    DistinctCount(ids);
    forall i: nat | i < |videos|
      ensures var v := videos[i];
              v.videoId in ids && v.videoId in sv.videos && v == sv.videos[v.videoId]
              && sorted[i].score == ScoreOf(hash, user, v)
    {
      SortedPair(i, ids, pairs, sorted, sv, hash, user);
    }
    forall id, v | id in ids && id in sv.videos && sv.videos[id] !in videos && v in videos
      ensures ScoreOf(hash, user, v) >= ScoreOf(hash, user, sv.videos[id])
    {
      var i :| 0 <= i < |videos| && videos[i] == v;
      assert forall j | 0 <= j < |videos| :: videos[j] in videos;
      LeftOutScoresLess(id, i, |videos|, ids, pairs, sorted, sv, hash, user);
    }
  }

  /** Scores, sorts and cuts to the limit. */
  method SelectBest(sv: Services, ids: seq<nat>, infos: seq<VideoInfo>, limit: int, hash: uint64 -> nat, user: Coefficients)
    returns (videos: seq<VideoInfo>)
    requires sv.Catalogued() && Distinct(ids) && InfosOf(sv, ids, infos)
    ensures BestOf(videos, Elements(ids), limit, sv, hash, user)
  {
    var pairs := Rank(infos, user, hash);
    var sorted := SortByScore(pairs);
    SameLength(pairs, sorted);
    var count := |sorted|;
    if limit < count {
      count := limit;
    }
    videos := TakeVideos(sorted, count);
    HeadIsBest(ids, pairs, sorted, videos, limit, sv, hash, user);
  }

  lemma SameLength(pairs: seq<RankPair>, sorted: seq<RankPair>)
    requires multiset(sorted) == multiset(pairs)
    ensures |sorted| == |pairs|
  {
    assert |multiset(sorted)| == |sorted| && |multiset(pairs)| == |pairs|;
  }

  /** The user is known, and so is everyone they subscribe to. */
  ghost predicate UsersFound(sv: Services, userId: nat, batch: nat) {
    && sv.maxUsers >= 1 && userId in sv.users
    && var subscribed := sv.users[userId].subscribedTo;
       sv.KnownUsers(subscribed) && Fits(|subscribed|, batch, sv.maxUsers)
  }

  /** So is every video the request will look up. */
  ghost predicate Answerable(sv: Services, userId: nat, batch: nat) {
    && UsersFound(sv, userId, batch)
    && var liked := LikedBy(sv, sv.users[userId].subscribedTo);
       liked <= sv.videos.Keys && Fits(|liked|, batch, sv.maxVideos)
  }

  /** With a batch size of 0 every lookup of a batch is refused as empty, so only
      users who subscribe to nobody are answered. */
  lemma ZeroBatchAnswers(sv: Services, userId: nat)
    ensures Answerable(sv, userId, 0) <==> sv.maxUsers >= 1 && userId in sv.users && sv.users[userId].subscribedTo == []
  {
    if userId in sv.users && sv.users[userId].subscribedTo == [] {
      assert LikedBy(sv, []) == {};
    }
  }

  ghost predicate NoFaults(faults: Faults) {
    !faults.first && (forall c :: !faults.users(c)) && (forall c :: !faults.videos(c))
  }

  /** A request fails at the user service. */
  ghost predicate UsersFail(sv: Services, userId: nat, batch: nat, faults: Faults) {
    || faults.first || !UsersFound(sv, userId, batch)
    || !Spared(faults.users, |sv.users[userId].subscribedTo|, batch)
  }

  /** A request that got past the user service fails at the video service. */
  ghost predicate VideosFail(sv: Services, userId: nat, batch: nat, faults: Faults)
    requires UsersFound(sv, userId, batch)
  {
    || !Answerable(sv, userId, batch)
    || !Spared(faults.videos, |LikedBy(sv, sv.users[userId].subscribedTo)|, batch)
  }

  /** How the ranking path of a request ends: with a selection, or at the
      service that failed it. */
  datatype Outcome = Best(videos: seq<VideoInfo>) | UserFailure(error: Refusal) | VideoFailure(error: Refusal)

  /** A request is answered exactly when everything it looks up is known, the batches
      fit and none is made to fail, and then with the best videos; otherwise the
      service to blame is known. */
  method Recommend(sv: Services, userId: nat, limit: int, batch: nat, hash: uint64 -> nat, faults: Faults) returns (o: Outcome)
    requires sv.Catalogued()
    ensures o.Best? ==> Answerable(sv, userId, batch)
    ensures o.Best? ==> BestOf(o.videos, LikedBy(sv, sv.users[userId].subscribedTo), limit, sv, hash, sv.users[userId].coefficients)
    ensures Answerable(sv, userId, batch) && NoFaults(faults) ==> o.Best?
    ensures o.UserFailure? <==> UsersFail(sv, userId, batch, faults)
    ensures !UsersFail(sv, userId, batch, faults) ==> (o.VideoFailure? <==> VideosFail(sv, userId, batch, faults))
    ensures o.UserFailure? && UsersFound(sv, userId, batch) ==> o.error == Injected
    ensures o.UserFailure? && faults.first ==> o.error == Injected
    ensures o.UserFailure? && !faults.first && sv.maxUsers >= 1 && userId !in sv.users ==> o.error == Unknown
    ensures o.VideoFailure? ==> o.error == Unavailable
  {
    var first := GetUser(sv, [userId], faults.first);
    if first.Err? {
      return UserFailure(first.error);
    }
    assert userId in [userId];
    var user := first.value[0];
    var candidates := FetchCandidates(sv, user.subscribedTo, batch, faults);
    if candidates.Err? {
      return UserFailure(candidates.error);
    }
    var ids := DeduplicateIds(candidates.value);
    assert LikedBy(sv, user.subscribedTo) == Elements(ids);
    DistinctCount(ids);
    var infos, cause := FetchVideos(sv, ids, batch, faults);
    if infos.Err? {
      return VideoFailure(infos.error);
    }
    var videos := SelectBest(sv, ids, infos.value, limit, hash, user.coefficients);
    o := Best(videos);
  }

  datatype Response = Ranked(videos: seq<VideoInfo>) | Stale(videos: seq<VideoInfo>) | Failed(error: Refusal)

  class VideoRecServer {
    const maxBatchSize: nat
    const disableFallback: bool
    var trending: seq<VideoInfo>
    var requests: nat
    var errors: nat
    var userErrors: nat
    var videoErrors: nat
    var staleResponses: nat

    constructor (maxBatchSize: nat, disableFallback: bool)
      ensures this.maxBatchSize == maxBatchSize && this.disableFallback == disableFallback
      ensures trending == [] && requests == 0 && Counted()
    {
      this.maxBatchSize, this.disableFallback := maxBatchSize, disableFallback;
      trending := [];
      requests, errors, userErrors, videoErrors, staleResponses := 0, 0, 0, 0, 0;
    }

    /** Every request that went wrong did so at one service. With the fallback
        off each of them is an error; with it on none is counted as one, even
        when there was nothing to fall back to. */
    ghost predicate Counted()
      reads this
    {
      && userErrors + videoErrors <= requests
      && (if disableFallback then errors == userErrors + videoErrors && staleResponses == 0
          else errors == 0 && staleResponses <= userErrors + videoErrors)
    }

    method Fallback(limit: int) returns (r: Response)
      modifies `staleResponses
      ensures trending == [] ==> r == Failed(Unavailable) && staleResponses == old(staleResponses)
      ensures trending != [] ==> staleResponses == old(staleResponses) + 1 && r.Stale?
      ensures r.Stale? ==> r.videos <= trending && r.videos != [] && (limit > 0 ==> |r.videos| <= limit)
      ensures r.Stale? && (limit <= 0 || limit >= |trending|) ==> r.videos == trending
      ensures r.Stale? && 0 < limit < |trending| ==> |r.videos| == limit
    {
      if trending == [] {
        return Failed(Unavailable);
      }
      staleResponses := staleResponses + 1;
      var count := |trending|;
      if limit < count && limit > 0 {
        count := limit;
      }
      r := Stale(trending[..count]);
    }

    /** What a request does once a service has failed it. */
    method GiveUp(error: Refusal, limit: int) returns (r: Response)
      modifies `staleResponses, `errors
      ensures disableFallback ==> r == Failed(error) && errors == old(errors) + 1 && staleResponses == old(staleResponses)
      ensures !disableFallback ==> errors == old(errors) && !r.Ranked?
      ensures !disableFallback ==> staleResponses == old(staleResponses) + if trending == [] then 0 else 1
      ensures r.Stale? ==> r.videos <= trending && r.videos != [] && (limit > 0 ==> |r.videos| <= limit)
      ensures r.Failed? <==> disableFallback || trending == []
    {
      if !disableFallback {
        r := Fallback(limit);
        return;
      }
      errors := errors + 1;
      r := Failed(error);
    }

    method GetTopVideos(sv: Services, userId: nat, limit: int, hash: uint64 -> nat, faults: Faults) returns (r: Response)
      requires sv.Catalogued() && Counted()
      modifies this
      ensures trending == old(trending) && requests == old(requests) + 1 && Counted()
      ensures r.Ranked? ==> Answerable(sv, userId, maxBatchSize)
      ensures r.Ranked? ==> BestOf(r.videos, LikedBy(sv, sv.users[userId].subscribedTo), limit, sv, hash, sv.users[userId].coefficients)
      ensures Answerable(sv, userId, maxBatchSize) && NoFaults(faults) ==> r.Ranked?
      ensures userErrors + videoErrors == old(userErrors + videoErrors) + if r.Ranked? then 0 else 1
      ensures userErrors >= old(userErrors) && videoErrors >= old(videoErrors)
      ensures errors == old(errors) + if !r.Ranked? && disableFallback then 1 else 0
      ensures userErrors == old(userErrors) + if UsersFail(sv, userId, maxBatchSize, faults) then 1 else 0
      ensures !UsersFail(sv, userId, maxBatchSize, faults) ==>
                (r.Ranked? <==> !VideosFail(sv, userId, maxBatchSize, faults))
      ensures disableFallback && faults.first ==> r == Failed(Injected)
      ensures disableFallback && videoErrors > old(videoErrors) ==> r == Failed(Unavailable)
      ensures r.Stale? <==> staleResponses == old(staleResponses) + 1
      ensures r.Stale? ==> r.videos <= trending && r.videos != [] && (limit > 0 ==> |r.videos| <= limit)
      ensures r.Failed? ==> disableFallback || trending == []
    {
      requests := requests + 1;
      var outcome := Recommend(sv, userId, limit, maxBatchSize, hash, faults);
      match outcome
      case Best(videos) =>
        r := Ranked(videos);
      case UserFailure(error) =>
        userErrors := userErrors + 1;
        r := GiveUp(error, limit);
      case VideoFailure(error) =>
        videoErrors := videoErrors + 1;
        r := GiveUp(error, limit);
    }
  }
}
