/** The checker against a replicated register, under every interleaving of
    writers and readers of one key.

    A write takes effect on replicas one at a time, between its BeginWrite and
    its CompleteWrite; a successful write has reached every replica, a failed
    one any of them. A read is served by one replica. Times are nanoseconds. */
module CheckerSoundness {
  import opened Basics
  import opened Checker

  /** What one replica stores, by whom it was written and when. */
  datatype Cell = Empty | Cell(value: Value, writer: nat, stored: nat)

  datatype Writer = Writer(
    value: Value,
    ttl: nat,
    initialVersion: int,
    start: nat,
    applied: set<nat>,
    lastApply: nat,
    end: nat,
    failed: bool)

  datatype Answer = NoAnswer | NotFound(at: nat) | Found(value: Value, writer: nat, stored: nat, at: nat)

  /** A read in progress; `overlapped` records whether any write was in progress
      at any time since it began. */
  datatype Reader = Reader(initialVersion: int, writesPending: bool, start: nat, overlapped: bool, answer: Answer)

  /** The checker's state for the key, the replicas, everyone who ever wrote or
      read, the clock, and whether so far every write succeeded with a time to
      live of whole milliseconds. */
  datatype World = World(
    ks: KeyState,
    cells: seq<Cell>,
    writers: map<nat, Writer>,
    pending: set<nat>,
    readers: map<nat, Reader>,
    now: nat,
    buffer: nat,
    clean: bool)

  datatype Step =
    | BeginWrite(w: nat, value: Value, ttl: nat, start: nat)
    | Apply(w: nat, replica: nat)
    | CompleteWrite(w: nat, failed: bool, end: nat)
    | BeginRead(r: nat, start: nat)
    | Fetch(r: nat, replica: nat)
    | Tick(ns: nat)

  function Init(replicas: nat, buffer: nat): World {
    World(NEW_KEY, seq(replicas, _ => Empty), map[], {}, map[], 0, buffer, true)
  }

  ghost predicate Enabled(s: World, step: Step) {
    match step
    case BeginWrite(w, value, _, start) =>
      // values are never written twice
      w !in s.writers && start <= s.now && forall x | x in s.writers :: s.writers[x].value != value
    case Apply(w, replica) => w in s.pending && w in s.writers && replica < |s.cells|
    case CompleteWrite(w, failed, end) =>
      && w in s.pending && w in s.writers
      && s.writers[w].start <= end <= s.now && s.writers[w].lastApply <= end
      && (!failed ==> forall i | 0 <= i < |s.cells| :: i in s.writers[w].applied)
    case BeginRead(r, start) => r !in s.readers && start <= s.now
    case Fetch(r, replica) => r in s.readers && replica < |s.cells|
    case Tick(_) => true
  }

  /** The server compares whole milliseconds since the value was stored with the
      whole milliseconds of its time to live. */
  predicate Served(stored: nat, ttl: nat, now: nat) {
    stored <= now && (now - stored) / NS_PER_MS < ttl / NS_PER_MS
  }

  function Answered(s: World, replica: nat): Answer
    requires replica < |s.cells|
  {
    match s.cells[replica]
    case Empty => NotFound(s.now)
    case Cell(value, w, stored) =>
      if w in s.writers && Served(stored, s.writers[w].ttl, s.now) then Found(value, w, stored, s.now) else NotFound(s.now)
  }

  function Record(wr: Writer, failed: bool, end: nat, buffer: nat): StateValue {
    Recorded(wr.value, failed, wr.start + wr.ttl, end + wr.ttl, buffer)
  }

  function Next(s: World, step: Step): World
    requires Enabled(s, step)
  {
    match step
    case BeginWrite(w, value, ttl, start) =>
      s.(ks := BeginWriteOn(s.ks),
         writers := s.writers[w := Writer(value, ttl, s.ks.version, start, {}, start, start, false)],
         pending := s.pending + {w},
         readers := map r | r in s.readers :: s.readers[r].(overlapped := true),
         clean := s.clean && ttl % NS_PER_MS == 0)
    case Apply(w, replica) =>
      var wr := s.writers[w];
      s.(cells := s.cells[replica := Cell(wr.value, w, s.now)],
         writers := s.writers[w := wr.(applied := wr.applied + {replica}, lastApply := s.now)])
    case CompleteWrite(w, failed, end) =>
      var wr := s.writers[w];
      s.(ks := CompleteWriteOn(s.ks, Record(wr, failed, end, s.buffer), wr.initialVersion),
         writers := s.writers[w := wr.(end := end, failed := failed)],
         pending := s.pending - {w},
         clean := s.clean && !failed)
    case BeginRead(r, start) =>
      s.(readers := s.readers[r := Reader(s.ks.version, s.ks.rc != 0, start, s.pending != {}, NoAnswer)])
    case Fetch(r, replica) =>
      s.(readers := s.readers[r := s.readers[r].(answer := Answered(s, replica))])
    case Tick(ns) => s.(now := s.now + ns)
  }

  // ------------------------------------------------------------- invariant

  ghost predicate CountsOk(s: World) {
    && s.ks.rc == |s.pending| && s.pending <= s.writers.Keys
    && (forall x, y | x in s.writers && y in s.writers && x != y :: s.writers[x].value != s.writers[y].value)
  }

  ghost predicate WriterOk(s: World, w: nat)
    requires w in s.writers
  {
    var wr := s.writers[w];
    && wr.initialVersion <= s.ks.version && wr.start <= wr.lastApply <= s.now
    && (forall i | i in wr.applied :: i < |s.cells| && s.cells[i].Cell?)
    && (w in s.pending && wr.initialVersion == s.ks.version ==>
          forall i | i in wr.applied :: s.cells[i].writer in s.pending)
    && (w in s.pending ==> !Duplicate(s.ks, wr.value))
    && (w !in s.pending ==> wr.lastApply <= wr.end)
    && (w !in s.pending && wr.value in s.ks.values ==>
          s.ks.values[wr.value] == Record(wr, wr.failed, wr.end, s.buffer))
  }

  /** Every replica holds a value that may be returned, or one still being written. */
  ghost predicate CellOk(s: World, i: nat)
    requires i < |s.cells|
  {
    s.cells[i].Cell? ==>
      var w := s.cells[i].writer;
      && w in s.writers && s.cells[i].value == s.writers[w].value
      && s.writers[w].start <= s.cells[i].stored <= s.writers[w].lastApply
      && (w in s.pending || s.cells[i].value in s.ks.values)
  }

  ghost predicate ValuesOk(s: World) {
    && (forall v | v in s.ks.values || v in s.ks.overwritten ::
          exists w :: w in s.writers && w !in s.pending && s.writers[w].value == v)
    && (s.clean && s.ks.values != map[] ==> forall i | 0 <= i < |s.cells| :: s.cells[i].Cell?)
    && (s.clean ==> forall w | w in s.writers :: s.writers[w].ttl % NS_PER_MS == 0)
  }

  ghost predicate ReaderOk(s: World, r: nat)
    requires r in s.readers
  {
    var rd := s.readers[r];
    && rd.initialVersion <= s.ks.version && rd.start <= s.now
    && (rd.writesPending ==> rd.overlapped)
    && (rd.overlapped <==> rd.initialVersion != s.ks.version || s.pending != {})
    && (rd.answer.Found? ==> FoundOk(s, rd))
    && (rd.answer.NotFound? ==> NotFoundOk(s, rd))
  }

  ghost predicate FoundOk(s: World, rd: Reader)
    requires rd.answer.Found?
  {
    var a := rd.answer;
    && a.writer in s.writers && s.writers[a.writer].value == a.value
    && a.stored <= s.writers[a.writer].lastApply && Served(a.stored, s.writers[a.writer].ttl, a.at)
    && rd.start <= a.at <= s.now
    && (!rd.overlapped ==> a.value in s.ks.values)
  }

  ghost predicate NotFoundOk(s: World, rd: Reader)
    requires rd.answer.NotFound?
  {
    && rd.answer.at <= s.now
    && (!rd.overlapped && s.clean && s.ks.values != map[] ==>
          exists v :: v in s.ks.values && s.ks.values[v].maybeExpiredBy <= rd.answer.at)
  }

  ghost predicate Inv(s: World) {
    && CountsOk(s)
    && (forall w | w in s.writers :: WriterOk(s, w))
    && (forall i | 0 <= i < |s.cells| :: CellOk(s, i))
    && ValuesOk(s)
    && (forall r | r in s.readers :: ReaderOk(s, r))
  }

  // ------------------------------------------------ the invariant, by step

  lemma ValuesKept(s: World, s': World)
    requires ValuesOk(s) && s'.ks.values == s.ks.values && s'.ks.overwritten == s.ks.overwritten
    requires forall w | w in s.writers && w !in s.pending ::
               w in s'.writers && w !in s'.pending && s'.writers[w].value == s.writers[w].value
    requires |s'.cells| == |s.cells| && forall i | 0 <= i < |s.cells| && s.cells[i].Cell? :: s'.cells[i].Cell?
    requires s'.clean ==> s.clean && forall w | w in s'.writers :: s'.writers[w].ttl % NS_PER_MS == 0
    ensures ValuesOk(s')
  {
    forall v | v in s'.ks.values || v in s'.ks.overwritten
      ensures exists w :: w in s'.writers && w !in s'.pending && s'.writers[w].value == v
    {
      var w :| w in s.writers && w !in s.pending && s.writers[w].value == v;
      assert w in s'.writers && w !in s'.pending && s'.writers[w].value == v;
    }
  }

  lemma BeginWriteWriters(s: World, step: Step)
    requires Inv(s) && Enabled(s, step) && step.BeginWrite?
    ensures var s' := Next(s, step); forall w | w in s'.writers :: WriterOk(s', w)
  {
    var s' := Next(s, step);
    FreshValue(s, step.value);
    forall w | w in s.writers ensures WriterOk(s', w) {
      BeginWriteWriter(s, step, w);
    }
  }

  lemma BeginWriteWriter(s: World, step: Step, w: nat)
    requires Inv(s) && Enabled(s, step) && step.BeginWrite? && w in s.writers
    ensures WriterOk(Next(s, step), w)
  {
    assert WriterOk(s, w);
  }

  lemma FreshValue(s: World, value: Value)
    requires ValuesOk(s) && forall x | x in s.writers :: s.writers[x].value != value
    ensures !Duplicate(s.ks, value)
  {
  }

  lemma BeginWriteReaders(s: World, step: Step)
    requires Inv(s) && Enabled(s, step) && step.BeginWrite?
    ensures var s' := Next(s, step); forall r | r in s'.readers :: ReaderOk(s', r)
  {
    var s' := Next(s, step);
    assert step.w in s'.pending;
    forall r | r in s'.readers ensures ReaderOk(s', r) {
      assert ReaderOk(s, r);
    }
  }

  lemma BeginWriteKeepsInv(s: World, step: Step)
    requires Inv(s) && Enabled(s, step) && step.BeginWrite?
    ensures Inv(Next(s, step))
  {
    var s' := Next(s, step);
    assert step.w !in s.pending && |s'.pending| == |s.pending| + 1;
    BeginWriteWriters(s, step);
    BeginWriteReaders(s, step);
    BeginWriteCells(s, step);
    BeginWriteValues(s, step);
  }

  lemma BeginWriteValues(s: World, step: Step)
    requires Inv(s) && Enabled(s, step) && step.BeginWrite?
    ensures ValuesOk(Next(s, step))
  {
    ValuesKept(s, Next(s, step));
  }

  lemma BeginWriteCells(s: World, step: Step)
    requires Inv(s) && Enabled(s, step) && step.BeginWrite?
    ensures var s' := Next(s, step); forall i | 0 <= i < |s'.cells| :: CellOk(s', i)
  {
    var s' := Next(s, step);
    forall i | 0 <= i < |s'.cells| ensures CellOk(s', i) {
      assert CellOk(s, i);
    }
  }

  lemma ApplyKeepsInv(s: World, w: nat, replica: nat)
    requires Inv(s) && Enabled(s, Apply(w, replica))
    ensures Inv(Next(s, Apply(w, replica)))
  {
    var s' := Next(s, Apply(w, replica));
    ApplyWriters(s, w, replica);
    ApplyCells(s, w, replica);
    forall r | r in s'.readers ensures ReaderOk(s', r) {
      assert ReaderOk(s, r);
    }
    ValuesKept(s, s');
  }

  lemma ApplyWriters(s: World, w: nat, replica: nat)
    requires Inv(s) && Enabled(s, Apply(w, replica))
    ensures var s' := Next(s, Apply(w, replica)); forall x | x in s'.writers :: WriterOk(s', x)
  {
    var s' := Next(s, Apply(w, replica));
    forall x | x in s'.writers ensures WriterOk(s', x) {
      assert WriterOk(s, x);
    }
  }

  lemma ApplyCells(s: World, w: nat, replica: nat)
    requires Inv(s) && Enabled(s, Apply(w, replica))
    ensures var s' := Next(s, Apply(w, replica)); forall i | 0 <= i < |s'.cells| :: CellOk(s', i)
  {
    var s' := Next(s, Apply(w, replica));
    assert WriterOk(s, w);
    forall i | 0 <= i < |s'.cells| ensures CellOk(s', i) {
      assert CellOk(s, i);
    }
  }

  /** A write that was alone has every replica to itself. */
  lemma AloneMeansEverywhere(s: World, w: nat)
    requires Inv(s) && w in s.pending && Alone(s.ks, s.writers[w].initialVersion)
    requires forall i | 0 <= i < |s.cells| :: i in s.writers[w].applied
    ensures s.pending == {w}
    ensures forall i | 0 <= i < |s.cells| :: s.cells[i].Cell? && s.cells[i].value == s.writers[w].value
  {
    assert s.pending == {w} by {
      assert |s.pending - {w}| == 0;
    }
    assert WriterOk(s, w);
    forall i | 0 <= i < |s.cells| ensures s.cells[i].Cell? && s.cells[i].value == s.writers[w].value {
      assert CellOk(s, i);
    }
  }

  lemma CompleteCells(s: World, w: nat, failed: bool, end: nat)
    requires Inv(s) && Enabled(s, CompleteWrite(w, failed, end))
    ensures var s' := Next(s, CompleteWrite(w, failed, end)); forall i | 0 <= i < |s'.cells| :: CellOk(s', i)
  {
    var s' := Next(s, CompleteWrite(w, failed, end));
    if !failed && Alone(s.ks, s.writers[w].initialVersion) {
      AloneMeansEverywhere(s, w);
    }
    forall i | 0 <= i < |s'.cells| ensures CellOk(s', i) {
      assert CellOk(s, i);
    }
  }

  lemma CompleteWriters(s: World, w: nat, failed: bool, end: nat)
    requires Inv(s) && Enabled(s, CompleteWrite(w, failed, end))
    ensures var s' := Next(s, CompleteWrite(w, failed, end)); forall x | x in s'.writers :: WriterOk(s', x)
  {
    var s' := Next(s, CompleteWrite(w, failed, end));
    forall x | x in s'.writers ensures WriterOk(s', x) {
      CompleteWriter(s, w, failed, end, x);
    }
  }

  lemma CompleteWriter(s: World, w: nat, failed: bool, end: nat, x: nat)
    requires Inv(s) && Enabled(s, CompleteWrite(w, failed, end)) && x in s.writers
    ensures WriterOk(Next(s, CompleteWrite(w, failed, end)), x)
  {
    assert WriterOk(s, w);
    assert WriterOk(s, x);
  }

  lemma CompleteValues(s: World, w: nat, failed: bool, end: nat)
    requires Inv(s) && Enabled(s, CompleteWrite(w, failed, end))
    ensures ValuesOk(Next(s, CompleteWrite(w, failed, end)))
  {
    var s' := Next(s, CompleteWrite(w, failed, end));
    forall v | v in s'.ks.values || v in s'.ks.overwritten
      ensures exists x :: x in s'.writers && x !in s'.pending && s'.writers[x].value == v
    {
      if v == s.writers[w].value {
        assert w in s'.writers && w !in s'.pending && s'.writers[w].value == v;
      } else {
        var x :| x in s.writers && x !in s.pending && s.writers[x].value == v;
        assert x in s'.writers && x !in s'.pending && s'.writers[x].value == v;
      }
    }
    if s'.clean {
      forall i | 0 <= i < |s'.cells| ensures s'.cells[i].Cell? {
        EverReachedStays(s, w, i);
      }
    }
  }

  /** A replica once written to is never empty again. */
  lemma EverReachedStays(s: World, w: nat, i: nat)
    requires Inv(s) && w in s.pending && w in s.writers && i < |s.cells| && i in s.writers[w].applied
    ensures s.cells[i].Cell?
  {
    assert WriterOk(s, w);
  }

  lemma CompleteReaders(s: World, w: nat, failed: bool, end: nat)
    requires Inv(s) && Enabled(s, CompleteWrite(w, failed, end))
    ensures var s' := Next(s, CompleteWrite(w, failed, end));
            CountsOk(s') && forall r | r in s'.readers :: ReaderOk(s', r)
  {
    var s' := Next(s, CompleteWrite(w, failed, end));
    forall r | r in s'.readers ensures ReaderOk(s', r) {
      assert ReaderOk(s, r);
    }
  }

  lemma CompleteKeepsInv(s: World, w: nat, failed: bool, end: nat)
    requires Inv(s) && Enabled(s, CompleteWrite(w, failed, end))
    ensures Inv(Next(s, CompleteWrite(w, failed, end)))
  {
    CompleteCells(s, w, failed, end);
    CompleteWriters(s, w, failed, end);
    CompleteValues(s, w, failed, end);
    CompleteReaders(s, w, failed, end);
  }

  lemma BeginReadKeepsInv(s: World, r: nat, start: nat)
    requires Inv(s) && Enabled(s, BeginRead(r, start))
    ensures Inv(Next(s, BeginRead(r, start)))
  {
    var s' := Next(s, BeginRead(r, start));
    OnlyReadersChange(s, s');
    assert |s.pending| == 0 <==> s.pending == {};
    forall x | x in s'.readers ensures ReaderOk(s', x) {
      if x != r {
        assert ReaderOk(s, x);
      }
    }
  }

  lemma OnlyReadersChange(s: World, s': World)
    requires Inv(s) && s' == s.(readers := s'.readers, now := s'.now) && s.now <= s'.now
    ensures CountsOk(s') && ValuesOk(s')
    ensures forall w | w in s'.writers :: WriterOk(s', w)
    ensures forall i | 0 <= i < |s'.cells| :: CellOk(s', i)
  {
    forall w | w in s'.writers ensures WriterOk(s', w) {
      assert WriterOk(s, w);
    }
    forall i | 0 <= i < |s'.cells| ensures CellOk(s', i) {
      assert CellOk(s, i);
    }
  }

  /** Without an overlapping write, whatever a replica answers is allowed: a
      value it finds is current, and a value it does not find is one that was
      never written or may have expired. */
  lemma FetchedOk(s: World, r: nat, replica: nat)
    requires Inv(s) && Enabled(s, Fetch(r, replica))
    ensures var s' := Next(s, Fetch(r, replica)); r in s'.readers && ReaderOk(s', r)
  {
    var s' := Next(s, Fetch(r, replica));
    assert ReaderOk(s, r) && CellOk(s, replica);
    var rd := s.readers[r];
    if !rd.overlapped && s.clean && s.ks.values != map[] && Answered(s, replica).NotFound? {
      var cell := s.cells[replica];
      var w := cell.writer;
      assert WriterOk(s, w);
      ExpiredExactly(cell.stored, s.writers[w].ttl, s.now);
      assert cell.value in s'.ks.values && s'.ks.values[cell.value].maybeExpiredBy <= s.now;
    }
  }

  /** For whole milliseconds the server's test is exact. */
  lemma ExpiredExactly(stored: nat, ttl: nat, now: nat)
    requires ttl % NS_PER_MS == 0 && stored <= now
    ensures Served(stored, ttl, now) <==> now < stored + ttl
  {
  }

  lemma FetchKeepsInv(s: World, r: nat, replica: nat)
    requires Inv(s) && Enabled(s, Fetch(r, replica))
    ensures Inv(Next(s, Fetch(r, replica)))
  {
    var s' := Next(s, Fetch(r, replica));
    OnlyReadersChange(s, s');
    FetchedOk(s, r, replica);
    forall x | x in s'.readers ensures ReaderOk(s', x) {
      if x != r {
        assert ReaderOk(s, x);
      }
    }
  }

  lemma TickKeepsInv(s: World, ns: nat)
    requires Inv(s)
    ensures Inv(Next(s, Tick(ns)))
  {
    var s' := Next(s, Tick(ns));
    OnlyReadersChange(s, s');
    forall x | x in s'.readers ensures ReaderOk(s', x) {
      assert ReaderOk(s, x);
    }
  }

  lemma StepKeepsInv(s: World, step: Step)
    requires Inv(s) && Enabled(s, step)
    ensures Inv(Next(s, step))
  {
    match step
    case BeginWrite(_, _, _, _) => BeginWriteKeepsInv(s, step);
    case Apply(w, replica) => ApplyKeepsInv(s, w, replica);
    case CompleteWrite(w, failed, end) => CompleteKeepsInv(s, w, failed, end);
    case BeginRead(r, start) => BeginReadKeepsInv(s, r, start);
    case Fetch(r, replica) => FetchKeepsInv(s, r, replica);
    case Tick(ns) => TickKeepsInv(s, ns);
  }

  // ------------------------------------------------------------- whole runs

  ghost predicate ValidRun(s: World, steps: seq<Step>)
    decreases |steps|
  {
    steps == [] || (Enabled(s, steps[0]) && ValidRun(Next(s, steps[0]), steps[1..]))
  }

  ghost function After(s: World, steps: seq<Step>): World
    requires ValidRun(s, steps)
    decreases |steps|
  {
    if steps == [] then s else After(Next(s, steps[0]), steps[1..])
  }

  lemma {:induction false} RunKeepsInv(s: World, steps: seq<Step>)
    requires Inv(s) && ValidRun(s, steps)
    ensures Inv(After(s, steps))
    decreases |steps|
  {
    if steps != [] {
      StepKeepsInv(s, steps[0]);
      RunKeepsInv(Next(s, steps[0]), steps[1..]);
    }
  }

  ghost predicate Reachable(replicas: nat, buffer: nat, s: World) {
    exists steps: seq<Step> :: ValidRun(Init(replicas, buffer), steps) && After(Init(replicas, buffer), steps) == s
  }

  lemma ReachableInv(replicas: nat, buffer: nat, s: World)
    requires Reachable(replicas, buffer, s)
    ensures Inv(s)
  {
    var steps :| ValidRun(Init(replicas, buffer), steps) && After(Init(replicas, buffer), steps) == s;
    RunKeepsInv(Init(replicas, buffer), steps);
  }

  /** The read as handed to the checker. */
  function ReadOf(rd: Reader): Read
    requires !rd.answer.NoAnswer?
  {
    Read(if rd.answer.Found? then rd.answer.value else "", rd.answer.Found?, rd.start, rd.initialVersion, rd.writesPending)
  }

  ghost predicate HasAnswer(s: World, r: nat) {
    r in s.readers && !s.readers[r].answer.NoAnswer?
  }

  ghost function Verdict(s: World, r: nat, checkTtl: bool): Checker.Verdict
    requires HasAnswer(s, r)
  {
    CheckReadOn(s.ks, ReadOf(s.readers[r]), s.now, checkTtl)
  }

  /** The two counters detect concurrency exactly: a check is skipped if and only
      if some write was in progress at some time since the read began. */
  lemma SkippedIffOverlapped(replicas: nat, buffer: nat, s: World, r: nat, checkTtl: bool)
    requires Reachable(replicas, buffer, s) && HasAnswer(s, r)
    ensures Verdict(s, r, checkTtl).Skipped? <==> s.readers[r].overlapped
  {
    ReachableInv(replicas, buffer, s);
    assert ReaderOk(s, r);
    assert |s.pending| == 0 <==> s.pending == {};
  }

  /** No false alarm about values: whatever interleaving led here, and whichever
      subsets of replicas the failed writes reached, a value found by a read is
      never reported as overwritten or never written. */
  lemma NoFalseIncorrectValue(replicas: nat, buffer: nat, s: World, r: nat, checkTtl: bool)
    requires Reachable(replicas, buffer, s) && HasAnswer(s, r)
    ensures !Verdict(s, r, checkTtl).Overwritten? && !Verdict(s, r, checkTtl).NeverWritten?
  {
    SkippedIffOverlapped(replicas, buffer, s, r, checkTtl);
    ReachableInv(replicas, buffer, s);
    assert ReaderOk(s, r);
  }

  /** No false alarm about expiry of a value that was found, failed writes or not. */
  lemma NoFalseExpired(replicas: nat, buffer: nat, s: World, r: nat, checkTtl: bool)
    requires Reachable(replicas, buffer, s) && HasAnswer(s, r)
    ensures !Verdict(s, r, checkTtl).Expired?
  {
    SkippedIffOverlapped(replicas, buffer, s, r, checkTtl);
    ReachableInv(replicas, buffer, s);
    assert ReaderOk(s, r);
    var rd := s.readers[r];
    if rd.answer.Found? && !rd.overlapped {
      var a := rd.answer;
      assert WriterOk(s, a.writer);
      ServedBeforeDeadline(a.stored, s.writers[a.writer].ttl, a.at);
    }
  }

  lemma ServedBeforeDeadline(stored: nat, ttl: nat, now: nat)
    requires Served(stored, ttl, now)
    ensures now < stored + ttl
  {
  }

  /** When all writes succeed and times to live are whole milliseconds, exactly
      when a value that was not found is reported although nothing is wrong:
      when the check happens at the very instant the replica was asked, and no
      current value was due before that instant. */
  lemma MissingOnlyAtTheSameInstant(replicas: nat, buffer: nat, s: World, r: nat, checkTtl: bool)
    requires Reachable(replicas, buffer, s) && HasAnswer(s, r) && s.clean
    ensures Verdict(s, r, checkTtl).Missing? <==>
              && s.readers[r].answer == NotFound(s.now) && !s.readers[r].overlapped
              && s.ks.values != map[] && forall v | v in s.ks.values :: s.now <= s.ks.values[v].maybeExpiredBy
  {
    SkippedIffOverlapped(replicas, buffer, s, r, checkTtl);
    ReachableInv(replicas, buffer, s);
    assert ReaderOk(s, r);
    var rd := s.readers[r];
    if rd.answer.NotFound? && !rd.overlapped && s.ks.values != map[] {
      var v :| v in s.ks.values && s.ks.values[v].maybeExpiredBy <= rd.answer.at;
      assert rd.answer.at < s.now ==> SomeMaybeExpired(s.ks.values, s.now);
    }
  }

  /** Every write the checker is told about finishes without the duplicate-value
      panic. */
  lemma CompletionNeverPanics(replicas: nat, buffer: nat, s: World, w: nat)
    requires Reachable(replicas, buffer, s) && w in s.pending && w in s.writers
    ensures !Duplicate(s.ks, s.writers[w].value)
  {
    ReachableInv(replicas, buffer, s);
    assert WriterOk(s, w);
  }

  // ------------------------------------ the clock must really have moved on

  lemma {:induction false} RunExtends(s: World, steps: seq<Step>, step: Step)
    requires ValidRun(s, steps) && Enabled(After(s, steps), step)
    ensures ValidRun(s, steps + [step]) && After(s, steps + [step]) == Next(After(s, steps), step)
    decreases |steps|
  {
    if steps == [] {
      assert [step][1..] == [];
    } else {
      RunExtends(Next(s, steps[0]), steps[1..], step);
      assert (steps + [step])[1..] == steps[1..] + [step];
    }
  }

  lemma ReachableStep(replicas: nat, buffer: nat, s: World, step: Step)
    requires Reachable(replicas, buffer, s) && Enabled(s, step)
    ensures Reachable(replicas, buffer, Next(s, step))
  {
    var init := Init(replicas, buffer);
    var steps :| ValidRun(init, steps) && After(init, steps) == s;
    RunExtends(init, steps, step);
    assert ValidRun(init, steps + [step]) && After(init, steps + [step]) == Next(s, step);
  }

  /** One write of a one-millisecond value, all of it at time 0. */
  function Written(now: nat): World {
    var record := StateValue("v", NS_PER_MS, NS_PER_MS, false);
    World(KeyState(map["v" := record], map[], 1, 0), [Cell("v", 3, 0)],
          map[3 := Writer("v", NS_PER_MS, 0, 0, {0}, 0, 0, false)], {}, map[], now, 0, true)
  }

  /** The same write before it is completed, and before it took effect. */
  function Writing(cell: Cell, applied: set<nat>): World {
    World(KeyState(map[], map[], 0, 1), [cell],
          map[3 := Writer("v", NS_PER_MS, 0, 0, applied, 0, 0, false)], {3}, map[], 0, 0, true)
  }

  lemma WritingReachable()
    ensures Reachable(1, 0, Writing(Empty, {}))
  {
    var s0 := Init(1, 0);
    assert ValidRun(s0, []) && After(s0, []) == s0;
    ReachableStep(1, 0, s0, BeginWrite(3, "v", NS_PER_MS, 0));
    assert Next(s0, BeginWrite(3, "v", NS_PER_MS, 0)) == Writing(Empty, {});
  }

  lemma WrittenReachable()
    ensures Reachable(1, 0, Written(0))
  {
    WritingReachable();
    var s1 := Writing(Empty, {});
    ReachableStep(1, 0, s1, Apply(3, 0));
    var s2 := Writing(Cell("v", 3, 0), {0});
    assert s2 == Next(s1, Apply(3, 0)) by {
      assert s1.writers[3].applied + {0} == {0};
      assert s1.cells[0 := Cell("v", 3, 0)] == s2.cells;
    }
    CompletingReachesWritten();
  }

  lemma CompletingReachesWritten()
    ensures var s := Writing(Cell("v", 3, 0), {0});
            Reachable(1, 0, s) ==> Reachable(1, 0, Written(0))
  {
    var s := Writing(Cell("v", 3, 0), {0});
    assert Next(s, CompleteWrite(3, false, 0)) == Written(0);
    if Reachable(1, 0, s) {
      ReachableStep(1, 0, s, CompleteWrite(3, false, 0));
    }
  }

  /** A read of that value under way when it expires. */
  function Reading(answer: Answer): World {
    Written(NS_PER_MS).(readers := map[7 := Reader(1, false, 0, false, answer)])
  }

  lemma ReadingReachable()
    ensures Reachable(1, 0, Reading(NoAnswer))
  {
    WrittenReachable();
    var s0 := Written(0);
    ReachableStep(1, 0, s0, BeginRead(7, 0));
    var s1 := s0.(readers := map[7 := Reader(1, false, 0, false, NoAnswer)]);
    assert s1 == Next(s0, BeginRead(7, 0));
    ReachableStep(1, 0, s1, Tick(NS_PER_MS));
    assert Reading(NoAnswer) == Next(s1, Tick(NS_PER_MS));
  }

  /** A replica asked at the very instant a value expires, and checked at that
      same instant, is reported although it answered correctly. */
  lemma MissingWhenClockStandsStill()
    ensures var s := Reading(NotFound(NS_PER_MS));
            && Reachable(1, 0, s) && s.clean && !Served(s.cells[0].stored, NS_PER_MS, s.now)
            && HasAnswer(s, 7) && Verdict(s, 7, true).Missing?
  {
    ReadingReachable();
    var s := Reading(NoAnswer);
    ReachableStep(1, 0, s, Fetch(7, 0));
    assert Reading(NotFound(NS_PER_MS)) == Next(s, Fetch(7, 0));
    assert "v" in s.ks.values;
  }
}
