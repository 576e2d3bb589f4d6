/** The consistency checker that runs beside the stress test. Per key it keeps
    the values a read may return, the values known to be overwritten, a version
    that grows with every finished write, and a count of writes in progress. */
module Checker {

  type Key = string
  type Value = string

  /** A recorded write, with the times before which it cannot and after which it
      must have expired. Times are in nanoseconds. */
  datatype StateValue = StateValue(value: Value, maybeExpiredBy: int, definitelyExpiredBy: int, failed: bool)

  datatype KeyState = KeyState(
    values: map<Value, StateValue>,
    overwritten: map<Value, StateValue>,
    version: int,
    rc: int)
  {
    /** Values are filed under themselves. */
    ghost predicate Filed() {
      forall v | v in values :: values[v].value == v
    }
  }

  const NEW_KEY := KeyState(map[], map[], 0, 0)

  datatype Verdict = Skipped | Correct | Missing | Overwritten | NeverWritten | Expired

  function BeginWriteOn(ks: KeyState): KeyState {
    ks.(rc := ks.rc + 1)
  }

  predicate Duplicate(ks: KeyState, value: Value) {
    value in ks.values || value in ks.overwritten
  }

  /** Nothing else was in progress or finished since this write began. */
  predicate Alone(ks: KeyState, initialVersion: int) {
    initialVersion == ks.version && ks.rc == 1
  }

  /** The checker allows some time beyond the moment a value must have expired. */
  function Recorded(value: Value, failed: bool, maybeExpiredBy: int, definitelyExpiredBy: int, buffer: nat): StateValue {
    StateValue(value, maybeExpiredBy, definitelyExpiredBy + buffer, failed)
  }

  function CompleteWriteOn(ks: KeyState, record: StateValue, initialVersion: int): KeyState {
    if !record.failed && Alone(ks, initialVersion)
    then KeyState(map[record.value := record], ks.overwritten + ks.values, ks.version + 1, ks.rc - 1)
    else KeyState(ks.values[record.value := record], ks.overwritten, ks.version + 1, ks.rc - 1)
  }

  /** A read as it comes back to the checker. */
  datatype Read = Read(value: Value, wasFound: bool, startTime: int, initialVersion: int, writesPending: bool)

  predicate Skips(ks: KeyState, read: Read) {
    ks.version != read.initialVersion || read.writesPending || ks.rc != 0
  }

  ghost predicate SomeMaybeExpired(values: map<Value, StateValue>, now: int) {
    exists v :: v in values && values[v].maybeExpiredBy < now
  }

  ghost function CheckReadOn(ks: KeyState, read: Read, now: int, checkTtl: bool): Verdict {
    if Skips(ks, read) then Skipped
    else if !read.wasFound then
      if ks.values == map[] || SomeMaybeExpired(ks.values, now) then Correct else Missing
    else if read.value !in ks.values then
      if read.value in ks.overwritten then Overwritten else NeverWritten
    else
      var val := ks.values[read.value];
      if checkTtl && !val.failed && val.definitelyExpiredBy < read.startTime then Expired else Correct
  }

  class ConsistencyChecker {
    const checkCorrectness: bool
    const checkTtl: bool
    const ttlCheckBuffer: nat
    var checksRun: nat
    var values: map<Key, map<Value, StateValue>>
    var overwrittenValues: map<Key, map<Value, StateValue>>
    var version: map<Key, int>
    var rc: map<Key, int>

    /** What the checker holds for one key; an absent key counts as empty. */
    ghost function View(key: Key): KeyState
      reads this
    {
      KeyState(if key in values then values[key] else map[],
               if key in overwrittenValues then overwrittenValues[key] else map[],
               if key in version then version[key] else 0,
               if key in rc then rc[key] else 0)
    }

    ghost predicate Valid()
      reads this
    {
      forall key | key in values :: forall v | v in values[key] :: values[key][v].value == v
    }

    constructor (check: bool, ttl: bool, buffer: nat)
      ensures Valid() && checkCorrectness == check && checkTtl == ttl && ttlCheckBuffer == buffer
      ensures forall key :: View(key) == NEW_KEY
    {
      checkCorrectness, checkTtl, ttlCheckBuffer, checksRun := check, ttl, buffer, 0;
      values, overwrittenValues, version, rc := map[], map[], map[], map[];
    }

    method BeginWrite(key: Key) returns (initialVersion: int)
      requires Valid()
      modifies this`rc
      ensures Valid()
      ensures forall other | other != key || !checkCorrectness :: View(other) == old(View(other))
      ensures checkCorrectness ==> View(key) == BeginWriteOn(old(View(key))) && initialVersion == View(key).version
    {
      if !checkCorrectness {
        return 0;
      }
      rc := rc[key := (if key in rc then rc[key] else 0) + 1];
      initialVersion := if key in version then version[key] else 0;
    }

    /** Returns true where the source panics: the same value written twice. */
    method CompleteWrite(key: Key, value: Value, failed: bool, initialVersion: int,
                         maybeExpiredBy: int, definitelyExpiredBy: int) returns (panicked: bool)
      requires Valid()
      modifies this`values, this`overwrittenValues, this`version, this`rc
      ensures Valid()
      ensures forall other | other != key || !checkCorrectness :: View(other) == old(View(other))
      ensures checkCorrectness ==> panicked == Duplicate(old(View(key)), value)
      ensures checkCorrectness && panicked ==> View(key) == old(View(key))
      ensures checkCorrectness && !panicked ==>
                View(key) == CompleteWriteOn(old(View(key)),
                                             Recorded(value, failed, maybeExpiredBy, definitelyExpiredBy, ttlCheckBuffer),
                                             initialVersion)
    {
      if !checkCorrectness {
        return false;
      }
      var newVal := Recorded(value, failed, maybeExpiredBy, definitelyExpiredBy, ttlCheckBuffer);
      var currentVersion := if key in version then version[key] else 0;
      var pending := if key in rc then rc[key] else 0;
      var current := if key in values then values[key] else map[];
      var gone := if key in overwrittenValues then overwrittenValues[key] else map[];
      if value in current || value in gone {
        return true;
      }
      if !failed && initialVersion == currentVersion && pending == 1 {
        gone := MoveAll(gone, current);
        current := map[value := newVal];
      } else {
        current := current[value := newVal];
      }
      Put(key, KeyState(current, gone, currentVersion + 1, pending - 1));
      panicked := false;
    }

    /** Writes back all four maps at one key. */
    method Put(key: Key, ks: KeyState)
      requires Valid() && ks.Filed()
      modifies this`values, this`overwrittenValues, this`version, this`rc
      ensures Valid() && View(key) == ks
      ensures forall other | other != key :: View(other) == old(View(other))
    {
      values := values[key := ks.values];
      overwrittenValues := overwrittenValues[key := ks.overwritten];
      version := version[key := ks.version];
      rc := rc[key := ks.rc];
    }

    method BeginRead(key: Key) returns (initialVersion: int, writesPending: bool)
      ensures checkCorrectness ==> initialVersion == View(key).version && writesPending == (View(key).rc != 0)
    {
      if !checkCorrectness {
        return 0, false;
      }
      initialVersion := if key in version then version[key] else 0;
      writesPending := (if key in rc then rc[key] else 0) != 0;
    }

    method CheckReadCorrect(key: Key, read: Read, now: int) returns (verdict: Verdict)
      modifies this`checksRun
      ensures verdict == if checkCorrectness then CheckReadOn(View(key), read, now, checkTtl) else Skipped
      ensures checksRun == old(checksRun) + if verdict.Skipped? then 0 else 1
    {
      if !checkCorrectness {
        return Skipped;
      }
      var currentVersion := if key in version then version[key] else 0;
      var pending := if key in rc then rc[key] else 0;
      if currentVersion != read.initialVersion || read.writesPending || pending != 0 {
        return Skipped;
      }
      checksRun := checksRun + 1;
      var current := if key in values then values[key] else map[];
      if !read.wasFound {
        var someValueExpired := AnyMaybeExpired(current, now);
        return if someValueExpired then Correct else Missing;
      }
      if read.value !in current {
        var gone := if key in overwrittenValues then overwrittenValues[key] else map[];
        return if read.value in gone then Overwritten else NeverWritten;
      }
      var val := current[read.value];
      if checkTtl && !val.failed && val.definitelyExpiredBy < read.startTime {
        return Expired;
      }
      verdict := Correct;
    }
  }

  /** Files every current value under the overwritten ones, in whatever order
      the map yields them. */
  method MoveAll(gone: map<Value, StateValue>, current: map<Value, StateValue>) returns (r: map<Value, StateValue>)
    requires forall v | v in current :: current[v].value == v
    ensures r == gone + current
  {
    r := gone;
    var left := current.Keys;
    while left != {}
      invariant left <= current.Keys
      invariant r == gone + map v | v in current && v !in left :: current[v]
    {
      var v :| v in left;
      r := r[current[v].value := current[v]];
      left := left - {v};
    }
    assert (map v | v in current && v !in left :: current[v]) == current;
  }

  method AnyMaybeExpired(current: map<Value, StateValue>, now: int) returns (some: bool)
    ensures some == (current == map[] || SomeMaybeExpired(current, now))
  {
    some := |current| == 0;
    var left := current.Keys;
    while left != {}
      invariant left <= current.Keys
      invariant some == (current == map[] || exists v :: v in current && v !in left && current[v].maybeExpiredBy < now)
    {
      var v :| v in left;
      if current[v].maybeExpiredBy < now {
        some := true;
      }
      left := left - {v};
    }
  }
}
