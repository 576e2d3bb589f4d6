/** One shard of the cache: a map whose entries carry the time they were stored
    and a time to live in milliseconds, and are ignored once expired. Times are
    nanoseconds. */
module Shard {
  import opened Basics

  type Key = string
  type Value = string

  datatype KvObject = KvObject(value: Value, storedTime: int, ttlMs: int)

  datatype Option<+T> = None | Some(value: T)

  type Data = map<Key, KvObject>

  /** Integer division that truncates toward zero. */
  function Truncated(a: int, b: int): int
    requires b > 0
  {
    if a >= 0 then a / b else -((-a) / b)
  }

  function Milliseconds(ns: int): int {
    Truncated(ns, NS_PER_MS)
  }

  predicate HasExpired(obj: KvObject, now: int) {
    Milliseconds(now - obj.storedTime) >= obj.ttlMs
  }

  function Deadline(obj: KvObject): int {
    obj.storedTime + obj.ttlMs * NS_PER_MS
  }

  /** Comparing whole milliseconds is exact: an entry expires at its deadline. */
  lemma ExpiredIffDeadline(obj: KvObject, now: int)
    requires obj.storedTime <= now
    ensures HasExpired(obj, now) <==> Deadline(obj) <= now
  {
  }

  function GetOn(data: Data, key: Key, now: int): Option<Value> {
    if key in data && !HasExpired(data[key], now) then Some(data[key].value) else None
  }

  function CleanupOn(data: Data, now: int): Data {
    map k | k in data && !HasExpired(data[k], now) :: data[k]
  }

  /** Each method is one step of the lazily expiring shard specified below. */
  class KvShard {
    var data: Data

    constructor ()
      ensures data == map[]
    {
      data := map[];
    }

    method Get(key: Key, now: int) returns (r: Option<Value>)
      ensures [r] == LazyAnswer(Lazy(data, now), Op.Get(key))
    {
      if key !in data || HasExpired(data[key], now) {
        return None;
      }
      r := Some(data[key].value);
    }

    method Set(key: Key, value: Value, ttlMs: int, now: int)
      modifies this
      ensures Lazy(data, now) == LazyStep(Lazy(old(data), now), Op.Set(key, value, ttlMs))
    {
      data := data[key := KvObject(value, now, ttlMs)];
    }

    method Delete(key: Key)
      modifies this
      ensures forall now :: Lazy(data, now) == LazyStep(Lazy(old(data), now), Op.Delete(key))
    {
      data := data - {key};
    }

    /** Collects the expired keys first, then deletes them one by one. */
    method Cleanup(now: int)
      modifies this
      ensures Lazy(data, now) == LazyStep(Lazy(old(data), now), Op.Cleanup)
    {
      ghost var before := data;
      var expired: seq<Key> := [];
      var left := data.Keys;
      while left != {}
        invariant data == before && left <= data.Keys
        invariant forall k :: k in expired <==> k in data && k !in left && HasExpired(data[k], now)
      {
        var k :| k in left;
        if HasExpired(data[k], now) {
          expired := expired + [k];
        }
        left := left - {k};
      }
      for i := 0 to |expired|
        invariant data == before - (set k | k in expired[..i])
      {
        data := data - {expired[i]};
        assert expired[..i + 1] == expired[..i] + [expired[i]];
      }
      assert expired[..|expired|] == expired;
    }
  }

  // ----------------------------- lazy expiry refines exact expiry

  datatype Op = Set(key: Key, value: Value, ttlMs: int) | Delete(key: Key) | Get(key: Key) | Cleanup | Advance(ns: nat)

  /** The shard with its clock. */
  datatype Lazy = Lazy(data: Data, now: int)

  datatype Due = Due(value: Value, deadline: int)

  /** A map from which a key vanishes at the very moment its time is up. */
  datatype Exact = Exact(entries: map<Key, Due>, now: int)

  function LazyStep(s: Lazy, op: Op): Lazy {
    match op
    case Set(key, value, ttlMs) => s.(data := s.data[key := KvObject(value, s.now, ttlMs)])
    case Delete(key) => s.(data := s.data - {key})
    case Get(_) => s
    case Cleanup => s.(data := CleanupOn(s.data, s.now))
    case Advance(ns) => s.(now := s.now + ns)
  }

  function Unexpired(entries: map<Key, Due>, now: int): map<Key, Due> {
    map k | k in entries && now < entries[k].deadline :: entries[k]
  }

  function ExactStep(s: Exact, op: Op): Exact {
    match op
    case Set(key, value, ttlMs) =>
      s.(entries := Unexpired(s.entries[key := Due(value, s.now + ttlMs * NS_PER_MS)], s.now))
    case Delete(key) => s.(entries := s.entries - {key})
    case Get(_) => s
    case Cleanup => s
    case Advance(ns) => Exact(Unexpired(s.entries, s.now + ns), s.now + ns)
  }

  function LazyAnswer(s: Lazy, op: Op): seq<Option<Value>> {
    if op.Get? then [GetOn(s.data, op.key, s.now)] else []
  }

  function ExactAnswer(s: Exact, op: Op): seq<Option<Value>> {
    if op.Get? then [if op.key in s.entries then Some(s.entries[op.key].value) else None] else []
  }

  function LazyAnswers(s: Lazy, ops: seq<Op>): seq<Option<Value>>
    decreases |ops|
  {
    if ops == [] then [] else LazyAnswer(s, ops[0]) + LazyAnswers(LazyStep(s, ops[0]), ops[1..])
  }

  function ExactAnswers(s: Exact, ops: seq<Op>): seq<Option<Value>>
    decreases |ops|
  {
    if ops == [] then [] else ExactAnswer(s, ops[0]) + ExactAnswers(ExactStep(s, ops[0]), ops[1..])
  }

  ghost predicate StoredInPast(data: Data, now: int) {
    forall k | k in data :: data[k].storedTime <= now
  }

  /** The exact map holds just the live part of the shard. */
  ghost predicate Related(s: Lazy, e: Exact) {
    && e.now == s.now && StoredInPast(s.data, s.now)
    && (forall k | k in e.entries :: k in s.data && e.entries[k] == Due(s.data[k].value, Deadline(s.data[k])))
    && (forall k | k in s.data :: k in e.entries <==> s.now < Deadline(s.data[k]))
  }

  lemma StepKeepsRelated(s: Lazy, e: Exact, op: Op)
    requires Related(s, e)
    ensures Related(LazyStep(s, op), ExactStep(e, op)) && LazyAnswer(s, op) == ExactAnswer(e, op)
  {
    forall k | k in s.data ensures HasExpired(s.data[k], s.now) <==> Deadline(s.data[k]) <= s.now {
      ExpiredIffDeadline(s.data[k], s.now);
    }
  }

  lemma {:induction false} RelatedAnswers(s: Lazy, e: Exact, ops: seq<Op>)
    requires Related(s, e)
    ensures LazyAnswers(s, ops) == ExactAnswers(e, ops)
    decreases |ops|
  {
    if ops != [] {
      StepKeepsRelated(s, e, ops[0]);
      RelatedAnswers(LazyStep(s, ops[0]), ExactStep(e, ops[0]), ops[1..]);
    }
  }

  /** Whatever is set, deleted, cleaned up and read, and however the clock moves
      in between, the shard answers as the exact map does. */
  lemma LazyRefinesExact(ops: seq<Op>, now: int)
    ensures LazyAnswers(Lazy(map[], now), ops) == ExactAnswers(Exact(map[], now), ops)
  {
    RelatedAnswers(Lazy(map[], now), Exact(map[], now), ops);
  }

  /** Cleaning up removes exactly the expired keys, and no later answer to any
      sequence of operations shows that it happened. */
  lemma CleanupUnobservable(s: Lazy, ops: seq<Op>)
    requires StoredInPast(s.data, s.now)
    ensures LazyAnswers(s, [Cleanup] + ops) == LazyAnswers(s, ops)
    ensures forall k | k in s.data :: k !in LazyStep(s, Cleanup).data <==> Deadline(s.data[k]) <= s.now
  {
    var live := map k | k in s.data && s.now < Deadline(s.data[k]) :: Due(s.data[k].value, Deadline(s.data[k]));
    var e := Exact(live, s.now);
    StepKeepsRelated(s, e, Cleanup);
    RelatedAnswers(s, e, ops);
    RelatedAnswers(LazyStep(s, Cleanup), e, ops);
    assert ([Cleanup] + ops)[1..] == ops;
    forall k | k in s.data ensures HasExpired(s.data[k], s.now) <==> Deadline(s.data[k]) <= s.now {
      ExpiredIffDeadline(s.data[k], s.now);
    }
  }

  // ------------------------------------------------- copying to another node

  /** What a node sends about one key: its value and whole milliseconds left. */
  datatype Remaining = Remaining(value: Value, ttlMs: int)

  type Contents = map<Key, Remaining>

  function RemainingOf(obj: KvObject, now: int): Remaining {
    Remaining(obj.value, obj.ttlMs - Milliseconds(now - obj.storedTime))
  }

  function ContentsOf(data: Data, now: int): Contents {
    map k | k in data && !HasExpired(data[k], now) :: RemainingOf(data[k], now)
  }

  function Arrived(r: Remaining, now: int): KvObject {
    KvObject(r.value, now, r.ttlMs)
  }

  /** One copy delays the deadline by the time the copy took, plus less than a
      millisecond. */
  lemma CopyDrift(obj: KvObject, sent: int, stored: int)
    requires obj.storedTime <= sent
    ensures var drift := Deadline(Arrived(RemainingOf(obj, sent), stored)) - Deadline(obj);
            stored - sent <= drift < stored - sent + NS_PER_MS
  {
    var age := sent - obj.storedTime;
    assert Milliseconds(age) * NS_PER_MS + age % NS_PER_MS == age;
  }

  datatype Copy = Copy(sent: int, stored: int)

  /** Each copy is sent after the previous one was stored, and stored after it
      was sent. */
  ghost predicate InOrder(from: int, copies: seq<Copy>)
    decreases |copies|
  {
    copies == [] || (from <= copies[0].sent <= copies[0].stored && InOrder(copies[0].stored, copies[1..]))
  }

  function AfterCopies(obj: KvObject, copies: seq<Copy>): KvObject
    decreases |copies|
  {
    if copies == [] then obj
    else AfterCopies(Arrived(RemainingOf(obj, copies[0].sent), copies[0].stored), copies[1..])
  }

  function TotalDelay(copies: seq<Copy>): int {
    if copies == [] then 0 else copies[0].stored - copies[0].sent + TotalDelay(copies[1..])
  }

  /** After any number of migrations the deadline has moved by the sum of the
      delays, plus less than a millisecond per migration, and never backwards. */
  lemma {:induction false} MigrationDrift(obj: KvObject, copies: seq<Copy>)
    requires InOrder(obj.storedTime, copies)
    ensures var drift := Deadline(AfterCopies(obj, copies)) - Deadline(obj);
            && 0 <= TotalDelay(copies) <= drift <= TotalDelay(copies) + |copies| * (NS_PER_MS - 1)
            && AfterCopies(obj, copies).value == obj.value
    decreases |copies|
  {
    if copies != [] {
      CopyDrift(obj, copies[0].sent, copies[0].stored);
      MigrationDrift(Arrived(RemainingOf(obj, copies[0].sent), copies[0].stored), copies[1..]);
    }
  }
}
