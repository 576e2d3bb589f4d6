/** The checker's verdicts in terms of who wrote what and when: a check that is not
    skipped reports exactly what the history of writes calls for. */
module CheckerDetection {
  import opened Checker
  import opened CheckerSoundness

  /** History of a write: the writes that had finished when it began, and whether any
      other was in progress at any time until it finished. */
  datatype Past = Past(before: set<nat>, overlapped: bool)

  type History = map<nat, Past>

  function Finished(s: World): set<nat> {
    s.writers.Keys - s.pending
  }

  /** A write that begins overlaps with every write in progress. */
  function Remember(s: World, h: History, step: Step): (r: History)
    ensures step.BeginWrite? ==>
              && r.Keys == h.Keys + {step.w} && r[step.w] == Past(Finished(s), s.pending != {})
              && forall x | x in h && x != step.w :: r[x] == Past(h[x].before, h[x].overlapped || x in s.pending)
    ensures !step.BeginWrite? ==> r == h
  {
    if !step.BeginWrite? then h
    else
      map x | x in h.Keys + {step.w} ::
        if x == step.w then Past(Finished(s), s.pending != {})
        else Past(h[x].before, h[x].overlapped || x in s.pending)
  }

  ghost function HistoryAfter(s: World, h: History, steps: seq<Step>): History
    requires ValidRun(s, steps)
    decreases |steps|
  {
    if steps == [] then h else HistoryAfter(Next(s, steps[0]), Remember(s, h, steps[0]), steps[1..])
  }

  /** Some run from the start leads to this state with this history. */
  ghost predicate Recalled(replicas: nat, buffer: nat, s: World, h: History) {
    exists steps: seq<Step> ::
      && ValidRun(Init(replicas, buffer), steps)
      && After(Init(replicas, buffer), steps) == s && HistoryAfter(Init(replicas, buffer), map[], steps) == h
  }

  predicate Supersedes(s: World, h: History, w: nat, x: nat) {
    w in Finished(s) && w in h && !s.writers[w].failed && !h[w].overlapped && x in h[w].before
  }

  /** A successful write, alone from beginning to end, began after x had finished. */
  ghost predicate Superseded(s: World, h: History, x: nat) {
    exists w :: Supersedes(s, h, w, x)
  }

  ghost predicate Current(s: World, h: History, x: nat) {
    x in Finished(s) && !Superseded(s, h, x)
  }

  // ------------------------------------------------------------- invariant

  ghost predicate PastOk(s: World, h: History, w: nat)
    requires w in s.writers && w in h
  {
    && h[w].before <= Finished(s) && w !in h[w].before
    && (w in s.pending ==>
          && (h[w].overlapped <==> s.writers[w].initialVersion != s.ks.version || s.pending != {w})
          && (!h[w].overlapped ==> h[w].before == Finished(s)))
  }

  ghost predicate FiledOk(s: World, h: History, x: nat)
    requires x in s.writers
  {
    x in Finished(s) ==>
      && (s.writers[x].value in s.ks.values <==> !Superseded(s, h, x))
      && (s.writers[x].value in s.ks.overwritten <==> Superseded(s, h, x))
  }

  ghost predicate HistoryOk(s: World, h: History) {
    && h.Keys == s.writers.Keys
    && (forall w | w in s.writers :: PastOk(s, h, w))
    && (forall x | x in s.writers :: FiledOk(s, h, x))
  }

  /** Nobody began, finished or changed the outcome of a write. */
  lemma NoWriteMoves(s: World, s': World, h: History)
    requires HistoryOk(s, h) && s'.pending == s.pending && s'.ks == s.ks && s'.writers.Keys == s.writers.Keys
    requires forall w | w in s.writers ::
               && s'.writers[w].failed == s.writers[w].failed && s'.writers[w].value == s.writers[w].value
               && s'.writers[w].initialVersion == s.writers[w].initialVersion
    ensures HistoryOk(s', h)
  {
    forall w | w in s'.writers ensures PastOk(s', h, w) {
      assert PastOk(s, h, w);
    }
    forall x | x in s'.writers ensures FiledOk(s', h, x) {
      assert FiledOk(s, h, x);
      forall w ensures Supersedes(s', h, w, x) <==> Supersedes(s, h, w, x) {
      }
    }
  }

  /** Write n has begun, and nothing else happened. */
  ghost predicate Begun(s: World, s': World, h: History, h': History, n: nat) {
    && n !in s.writers && h.Keys == s.writers.Keys && s.pending <= s.writers.Keys
    && s'.writers.Keys == s.writers.Keys + {n} && s'.pending == s.pending + {n}
    && (forall w | w in s.writers :: s'.writers[w] == s.writers[w])
    && h'.Keys == s'.writers.Keys && h'[n] == Past(Finished(s), s.pending != {})
    && (forall w | w in s.writers :: h'[w] == Past(h[w].before, h[w].overlapped || w in s.pending))
    && s'.ks == BeginWriteOn(s.ks) && s'.writers[n].initialVersion == s.ks.version
  }

  lemma BeginPast(s: World, s': World, h: History, h': History, n: nat, x: nat)
    requires Begun(s, s', h, h', n) && x in s'.writers && (x != n ==> PastOk(s, h, x))
    ensures PastOk(s', h', x)
  {
    assert Finished(s') == Finished(s);
    assert n in s'.pending && n !in Finished(s);
    if s.pending == {} {
      assert s'.pending == {n};
    }
  }

  lemma BeginFiled(s: World, s': World, h: History, h': History, n: nat, x: nat)
    requires Begun(s, s', h, h', n) && x in s'.writers && (x != n ==> FiledOk(s, h, x))
    ensures FiledOk(s', h', x)
  {
    assert Finished(s') == Finished(s);
    if x != n {
      forall w ensures Supersedes(s', h', w, x) <==> Supersedes(s, h, w, x) {
      }
    }
  }

  lemma BeginKeepsHistory(s: World, s': World, h: History, h': History, n: nat)
    requires HistoryOk(s, h) && Begun(s, s', h, h', n)
    ensures HistoryOk(s', h')
  {
    forall x | x in s'.writers ensures PastOk(s', h', x) {
      BeginPast(s, s', h, h', n, x);
    }
    forall x | x in s'.writers ensures FiledOk(s', h', x) {
      BeginFiled(s, s', h, h', n, x);
    }
  }

  /** Being alone, as the checker's counters see it, is not having been overlapped. */
  lemma AloneIffNotOverlapped(s: World, h: History, w: nat)
    requires CountsOk(s) && w in s.pending && w in h && PastOk(s, h, w)
    ensures Alone(s.ks, s.writers[w].initialVersion) <==> !h[w].overlapped
  {
    if |s.pending| == 1 {
      assert |s.pending - {w}| == 0;
    }
  }

  /** Write n has finished, and nothing else happened. */
  ghost predicate Ended(s: World, s': World, h: History, n: nat) {
    && n in s.pending && s.pending <= s.writers.Keys == h.Keys
    && s'.writers.Keys == s.writers.Keys && s'.pending == s.pending - {n}
    && (forall w | w in s.writers && w != n :: s'.writers[w] == s.writers[w])
    && s'.writers[n].value == s.writers[n].value && s'.ks.version == s.ks.version + 1
  }

  lemma EndPast(s: World, s': World, h: History, n: nat, x: nat)
    requires Ended(s, s', h, n) && x in s.writers && PastOk(s, h, x) && s.writers[x].initialVersion <= s.ks.version
    ensures PastOk(s', h, x)
  {
    assert Finished(s') == Finished(s) + {n};
    if x in s'.pending {
      assert s.pending != {x};
    }
  }

  /** Whatever supersedes once a write has finished did so before, or is that write. */
  lemma EndSupersedes(s: World, s': World, h: History, n: nat, x: nat)
    requires Ended(s, s', h, n) && (x in Finished(s) || x == n)
    requires forall w | w in s.writers :: PastOk(s, h, w)
    ensures Superseded(s', h, x) <==> x != n && (Superseded(s, h, x) || (!s'.writers[n].failed && !h[n].overlapped))
  {
    assert Finished(s') == Finished(s) + {n};
    assert PastOk(s, h, n);
    forall w ensures Supersedes(s', h, w, x) <==>
        Supersedes(s, h, w, x) || (w == n && !s'.writers[n].failed && !h[n].overlapped && x in h[n].before) {
    }
    if Superseded(s', h, x) {
      var w :| Supersedes(s', h, w, x);
      assert PastOk(s, h, w);
    }
    if Superseded(s, h, x) {
      var w :| Supersedes(s, h, w, x);
      assert PastOk(s, h, w) && Supersedes(s', h, w, x);
    }
    if x != n && !s'.writers[n].failed && !h[n].overlapped {
      assert Supersedes(s', h, n, x);
    }
  }

  lemma EndFiled(s: World, s': World, h: History, n: nat, x: nat, record: StateValue)
    requires Ended(s, s', h, n) && CountsOk(s) && x in s.writers && HistoryOk(s, h)
    requires s'.ks == CompleteWriteOn(s.ks, record, s.writers[n].initialVersion)
    requires record.value == s.writers[n].value && record.failed == s'.writers[n].failed
    requires !Duplicate(s.ks, record.value)
    ensures FiledOk(s', h, x)
  {
    assert FiledOk(s, h, x) && PastOk(s, h, n);
    AloneIffNotOverlapped(s, h, n);
    if x in Finished(s) || x == n {
      EndSupersedes(s, s', h, n, x);
    }
  }

  lemma EndKeepsHistory(s: World, s': World, h: History, n: nat, record: StateValue)
    requires Ended(s, s', h, n) && CountsOk(s) && HistoryOk(s, h)
    requires forall x | x in s.writers :: s.writers[x].initialVersion <= s.ks.version
    requires s'.ks == CompleteWriteOn(s.ks, record, s.writers[n].initialVersion)
    requires record.value == s.writers[n].value && record.failed == s'.writers[n].failed
    requires !Duplicate(s.ks, record.value)
    ensures HistoryOk(s', h)
  {
    forall x | x in s'.writers ensures PastOk(s', h, x) && FiledOk(s', h, x) {
      assert PastOk(s, h, x);
      EndPast(s, s', h, n, x);
      EndFiled(s, s', h, n, x, record);
    }
  }

  lemma CompleteKeepsHistory(s: World, h: History, n: nat, failed: bool, end: nat)
    requires Inv(s) && HistoryOk(s, h) && Enabled(s, CompleteWrite(n, failed, end))
    ensures HistoryOk(Next(s, CompleteWrite(n, failed, end)), h)
  {
    forall x | x in s.writers ensures s.writers[x].initialVersion <= s.ks.version {
      assert WriterOk(s, x);
    }
    assert WriterOk(s, n);
    EndKeepsHistory(s, Next(s, CompleteWrite(n, failed, end)), h, n, Record(s.writers[n], failed, end, s.buffer));
  }

  lemma BeginWriteBegins(s: World, h: History, step: Step)
    requires s.pending <= s.writers.Keys == h.Keys && Enabled(s, step) && step.BeginWrite?
    ensures Begun(s, Next(s, step), h, Remember(s, h, step), step.w)
  {
    var s', h' := Next(s, step), Remember(s, h, step);
    assert step.w !in s.writers && s'.writers.Keys == s.writers.Keys + {step.w};
    forall w | w in s.writers ensures h'[w] == Past(h[w].before, h[w].overlapped || w in s.pending) {
      assert w in h && w != step.w;
    }
  }

  lemma BeginWriteKeepsHistory(s: World, h: History, step: Step)
    requires CountsOk(s) && HistoryOk(s, h) && Enabled(s, step) && step.BeginWrite?
    ensures HistoryOk(Next(s, step), Remember(s, h, step))
  {
    var s', h' := Next(s, step), Remember(s, h, step);
    BeginWriteBegins(s, h, step);
    BeginKeepsHistory(s, s', h, h', step.w);
  }

  lemma OtherKeepsHistory(s: World, h: History, step: Step)
    requires HistoryOk(s, h) && Enabled(s, step) && !step.BeginWrite? && !step.CompleteWrite?
    ensures HistoryOk(Next(s, step), h)
  {
    NoWriteMoves(s, Next(s, step), h);
  }

  lemma StepKeepsHistory(s: World, h: History, step: Step)
    requires Inv(s) && HistoryOk(s, h) && Enabled(s, step)
    ensures HistoryOk(Next(s, step), Remember(s, h, step))
  {
    if step.BeginWrite? {
      BeginWriteKeepsHistory(s, h, step);
    } else if step.CompleteWrite? {
      CompleteKeepsHistory(s, h, step.w, step.failed, step.end);
    } else {
      OtherKeepsHistory(s, h, step);
    }
  }

  lemma {:induction false} RunKeepsHistory(s: World, h: History, steps: seq<Step>)
    requires Inv(s) && HistoryOk(s, h) && ValidRun(s, steps)
    ensures Inv(After(s, steps)) && HistoryOk(After(s, steps), HistoryAfter(s, h, steps))
    decreases |steps|
  {
    if steps != [] {
      StepKeepsInv(s, steps[0]);
      StepKeepsHistory(s, h, steps[0]);
      RunKeepsHistory(Next(s, steps[0]), Remember(s, h, steps[0]), steps[1..]);
    }
  }

  lemma RecalledOk(replicas: nat, buffer: nat, s: World, h: History)
    requires Recalled(replicas, buffer, s, h)
    ensures Inv(s) && HistoryOk(s, h)
  {
    var steps :| && ValidRun(Init(replicas, buffer), steps)
                 && After(Init(replicas, buffer), steps) == s && HistoryAfter(Init(replicas, buffer), map[], steps) == h;
    RunKeepsHistory(Init(replicas, buffer), map[], steps);
  }

  /** Every reachable state has a history. */
  lemma ReachableRecalled(replicas: nat, buffer: nat, s: World) returns (h: History)
    requires Reachable(replicas, buffer, s)
    ensures Recalled(replicas, buffer, s, h)
  {
    var steps :| ValidRun(Init(replicas, buffer), steps) && After(Init(replicas, buffer), steps) == s;
    h := HistoryAfter(Init(replicas, buffer), map[], steps);
  }

  // -------------------------------------------------------------- verdicts

  /** What the checker says when read r comes back with any answer, right or wrong. */
  ghost function VerdictOn(s: World, r: nat, wasFound: bool, value: Value, checkTtl: bool): Checker.Verdict
    requires r in s.readers
  {
    var rd := s.readers[r];
    CheckReadOn(s.ks, Read(value, wasFound, rd.start, rd.initialVersion, rd.writesPending), s.now, checkTtl)
  }

  lemma CheckedMeansQuiet(s: World, r: nat, wasFound: bool, value: Value, checkTtl: bool)
    requires Inv(s) && r in s.readers
    ensures VerdictOn(s, r, wasFound, value, checkTtl).Skipped? <==> s.readers[r].overlapped
    ensures !s.readers[r].overlapped ==> s.pending == {} && Finished(s) == s.writers.Keys
  {
    assert ReaderOk(s, r);
    assert |s.pending| == 0 <==> s.pending == {};
  }

  /** A value that was found is reported as never written exactly if nobody wrote it.
      Otherwise it is reported as overwritten exactly if its write was superseded, and
      else as expired exactly if expiry is checked, the write succeeded, and the read
      began after the write's end plus its time to live plus the buffer. */
  lemma FoundVerdictExact(replicas: nat, buffer: nat, s: World, h: History, r: nat, value: Value, checkTtl: bool)
    requires Recalled(replicas, buffer, s, h) && r in s.readers && !s.readers[r].overlapped
    ensures var verdict := VerdictOn(s, r, true, value, checkTtl);
            && (verdict.NeverWritten? <==> forall w | w in s.writers :: s.writers[w].value != value)
            && forall w | w in s.writers && s.writers[w].value == value ::
                 verdict == Deserved(s, h, w, s.readers[r].start, checkTtl)
  {
    RecalledOk(replicas, buffer, s, h);
    CheckedMeansQuiet(s, r, true, value, checkTtl);
    forall w | w in s.writers && s.writers[w].value == value
      ensures VerdictOn(s, r, true, value, checkTtl) == Deserved(s, h, w, s.readers[r].start, checkTtl)
    {
      WrittenVerdict(s, h, r, w, checkTtl);
    }
    if value in s.ks.values || value in s.ks.overwritten {
      var w :| w in s.writers && w !in s.pending && s.writers[w].value == value;
    }
  }

  /** The verdict a read of write w's value deserves. */
  ghost function Deserved(s: World, h: History, w: nat, start: nat, checkTtl: bool): Checker.Verdict
    requires w in s.writers
  {
    var wr := s.writers[w];
    if Superseded(s, h, w) then Overwritten
    else if checkTtl && !wr.failed && wr.end + wr.ttl + s.buffer < start then Expired
    else Correct
  }

  lemma WrittenVerdict(s: World, h: History, r: nat, w: nat, checkTtl: bool)
    requires Inv(s) && HistoryOk(s, h) && r in s.readers && !s.readers[r].overlapped && w in s.writers
    ensures VerdictOn(s, r, true, s.writers[w].value, checkTtl) == Deserved(s, h, w, s.readers[r].start, checkTtl)
  {
    CheckedMeansQuiet(s, r, true, s.writers[w].value, checkTtl);
    assert FiledOk(s, h, w) && WriterOk(s, w);
  }

  /** A read that found nothing is reported as missing exactly if some write is current
      and no current one could have expired before the check. */
  lemma MissingVerdictExact(replicas: nat, buffer: nat, s: World, h: History, r: nat, checkTtl: bool)
    requires Recalled(replicas, buffer, s, h) && r in s.readers && !s.readers[r].overlapped
    ensures var verdict := VerdictOn(s, r, false, "", checkTtl);
            && (verdict.Missing? || verdict.Correct?)
            && (verdict.Missing? <==>
                  && (exists w :: Current(s, h, w))
                  && forall w | Current(s, h, w) :: s.now <= s.writers[w].start + s.writers[w].ttl)
  {
    RecalledOk(replicas, buffer, s, h);
    CheckedMeansQuiet(s, r, false, "", checkTtl);
    forall w | Current(s, h, w)
      ensures s.writers[w].value in s.ks.values
      ensures s.ks.values[s.writers[w].value].maybeExpiredBy == s.writers[w].start + s.writers[w].ttl
    {
      assert FiledOk(s, h, w) && WriterOk(s, w);
    }
    forall v | v in s.ks.values ensures exists w :: Current(s, h, w) && s.writers[w].value == v {
      var w :| w in s.writers && w !in s.pending && s.writers[w].value == v;
      assert FiledOk(s, h, w);
    }
  }

  lemma {:induction false} EntryStays(s: World, h: History, steps: seq<Step>, w: nat)
    requires ValidRun(s, steps) && w in h && w in s.writers && forall step | step in steps :: !step.BeginWrite?
    ensures w in HistoryAfter(s, h, steps) && HistoryAfter(s, h, steps)[w] == h[w]
    ensures w in After(s, steps).writers
    decreases |steps|
  {
    if steps != [] {
      EntryStays(Next(s, steps[0]), Remember(s, h, steps[0]), steps[1..], w);
    }
  }

  /** A write that begins while none is in progress and succeeds before another begins
      supersedes every write before it, so that all their values are reported. */
  lemma LoneWriteSupersedes(s: World, h: History, begin: Step, steps: seq<Step>, end: nat, x: nat)
    requires s.pending == {} && x in s.writers && begin.BeginWrite? && Enabled(s, begin)
    requires ValidRun(Next(s, begin), steps) && forall step | step in steps :: !step.BeginWrite?
    requires Enabled(After(Next(s, begin), steps), CompleteWrite(begin.w, false, end))
    ensures var s' := Next(After(Next(s, begin), steps), CompleteWrite(begin.w, false, end));
            Superseded(s', HistoryAfter(Next(s, begin), Remember(s, h, begin), steps), x)
  {
    var h' := Remember(s, h, begin);
    EntryStays(Next(s, begin), h', steps, begin.w);
    var last := HistoryAfter(Next(s, begin), h', steps);
    var s' := Next(After(Next(s, begin), steps), CompleteWrite(begin.w, false, end));
    assert Supersedes(s', last, begin.w, x);
  }
}
