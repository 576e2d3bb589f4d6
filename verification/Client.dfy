/** The client's side of the cache: a Get that moves on to the next replica when
    one fails, and writes that go to every replica. */
module Client {
  import opened Basics
  import opened Shard
  import opened ShardMap

  datatype Reply = Failed(code: int) | Answered(found: Option<Value>)

  datatype Outcome = NoNode | AllFailed(code: int) | Got(found: Option<Value>)

  /** The replica asked in the i-th attempt, starting from a random one. */
  function Turn(index: nat, i: nat, n: nat): (r: nat)
    requires n > 0
    ensures r < n
  {
    (index + i) % n
  }

  /** With a starting point inside the list, a turn wraps around at most once. */
  lemma TurnWraps(index: nat, i: nat, n: nat)
    requires index < n && i < n
    ensures Turn(index, i, n) == if index + i < n then index + i else index + i - n
  {
    QuotientOf(index + i, n, if index + i < n then 0 else 1);
  }

  /** Attempts ask different replicas. */
  lemma TurnsDiffer(index: nat, i: nat, j: nat, n: nat)
    requires index < n && i < j < n
    ensures Turn(index, i, n) != Turn(index, j, n)
  {
    TurnWraps(index, i, n);
    TurnWraps(index, j, n);
  }

  /** Every replica has its turn. */
  lemma TurnsCover(index: nat, p: nat, n: nat) returns (i: nat)
    requires index < n && p < n
    ensures i < n && Turn(index, i, n) == p
  {
    i := if p >= index then p - index else p + n - index;
    TurnWraps(index, i, n);
  }

  /** Asks one replica after another, each at most once, until one answers; it
      fails exactly when every replica fails. */
  method Get(nodes: seq<Node>, index: nat, ask: Node -> Reply) returns (r: Outcome, attempts: nat)
    requires nodes != [] ==> index < |nodes|
    ensures attempts <= |nodes| && (r.NoNode? <==> nodes == [])
    ensures forall i, j | 0 <= i < j < attempts :: Turn(index, i, |nodes|) != Turn(index, j, |nodes|)
    ensures r.Got? ==>
              && 1 <= attempts && ask(nodes[Turn(index, attempts - 1, |nodes|)]) == Answered(r.found)
              && forall i | 0 <= i < attempts - 1 :: ask(nodes[Turn(index, i, |nodes|)]).Failed?
    ensures nodes != [] ==> (r.AllFailed? <==> forall n | n in nodes :: ask(n).Failed?)
    ensures r.AllFailed? ==>
              attempts == |nodes| && ask(nodes[Turn(index, attempts - 1, |nodes|)]) == Reply.Failed(r.code)
  {
    attempts := 0;
    if |nodes| == 0 {
      return NoNode, 0;
    }
    forall i: nat, j: nat | i < j < |nodes| ensures Turn(index, i, |nodes|) != Turn(index, j, |nodes|) {
      TurnsDiffer(index, i, j, |nodes|);
    }
    var code := 0;
    for i := 0 to |nodes|
      invariant attempts == i && (i > 0 ==> ask(nodes[Turn(index, i - 1, |nodes|)]) == Reply.Failed(code))
      invariant forall j | 0 <= j < i :: ask(nodes[Turn(index, j, |nodes|)]).Failed?
    {
      var node := nodes[Turn(index, i, |nodes|)];
      var reply := ask(node);
      attempts := i + 1;
      if reply.Answered? {
        assert node in nodes;
        return Got(reply.found), attempts;
      }
      code := reply.code;
    }
    forall n | n in nodes ensures ask(n).Failed? {
      var p :| 0 <= p < |nodes| && nodes[p] == n;
      var i := TurnsCover(index, p, |nodes|);
    }
    r := AllFailed(code);
  }

  /** Collects one result per replica, in whatever order they arrive, and reports
      success exactly when every replica accepted the write, else the last error. */
  method CollectErrors(results: seq<Option<int>>) returns (err: Option<int>)
    ensures err == None <==> forall e | e in results :: e == None
    ensures err.Some? ==> exists i :: 0 <= i < |results| && results[i] == err && forall j | i < j < |results| :: results[j] == None
  {
    err := None;
    for i := 0 to |results|
      invariant err == None ==> forall j | 0 <= j < i :: results[j] == None
      invariant err.Some? ==> exists k :: 0 <= k < i && results[k] == err && forall j | k < j < i :: results[j] == None
    {
      if results[i] != None {
        err := results[i];
      }
    }
    if k :| 0 <= k < |results| && results[k] == err && err.Some? {
      assert results[k] in results;
    }
  }
}
