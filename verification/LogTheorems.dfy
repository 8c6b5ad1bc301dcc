/** What holds of every interleaving of writers, state updates and readers. */
module LogTheorems {
  import opened RunEvents
  import opened EventLog
  import opened EventStream
  import opened LogSystem

  lemma InitialOk()
    ensures SysOk(INITIAL)
  {
  }

  /** In every reachable state each run's log carries seqs exactly 1..n, ids are
      unique, `latest_seq` is n, and every resume event points strictly back. */
  lemma {:induction false} ReachableLogs(steps: seq<Step>, run: RunId)
    ensures var s := Exec(INITIAL, steps);
      && Numbered(LogOf(s, run))
      && MaxSeq(s.table.rows, run) == |LogOf(s, run)|
      && WellFormed(s.table.rows)
      && ResumesPointBack(s.table.rows)
  {
    InitialOk();
    ExecKeeps(INITIAL, steps);
    MaxSeqIsLength(Exec(INITIAL, steps).table.rows, run);
  }

  lemma {:induction false} Exec2(s: Sys, a: Step, b: Step)
    ensures Exec(s, [a, b]) == Next(Next(s, a), b)
  {
    assert [a, b][..1] == [a] && [a][..0] == [];
    assert Exec(s, [a]) == Next(s, a);
  }

  /** A service call with no step between its read and its write is one append. */
  lemma {:induction false} CallIsReadThenWrite(s: Sys, w: WriterId, run: RunId, intent: Intent)
    requires w !in s.writers && (intent.Note? ==> !intent.body.Resumed?)
    ensures var event := MakeEvent(Pending(run, MaxSeq(s.table.rows, run), intent));
      Exec(s, [Read(w, run, intent), Write(w)]) == s.(table := Append(s.table, event).0)
  {
    var read, write := Step.Read(w, run, intent), Step.Write(w);
    Exec2(s, read, write);
    assert Next(s, read).writers - {w} == s.writers;
  }

  // ---- growth ----

  /** How many of the steps append to `run`. */
  ghost function CountAppends(s: Sys, steps: seq<Step>, run: RunId): nat {
    if steps == [] then 0
    else
      var n := |steps| - 1;
      CountAppends(s, steps[..n], run) + (if Appends(Exec(s, steps[..n]), steps[n], run) then 1 else 0)
  }

  /** Logs stay well formed from any table that is. */
  lemma {:induction false} ExecWellFormed(s: Sys, steps: seq<Step>)
    requires WellFormed(s.table.rows)
    ensures WellFormed(Exec(s, steps).table.rows)
  {
    if steps == [] {
    } else {
      var n := |steps| - 1;
      ExecWellFormed(s, steps[..n]);
      StepLog(Exec(s, steps[..n]), steps[n], "");
    }
  }

  /** A log is never rewritten: it only grows, by one row for each successful append to its own run. */
  lemma {:induction false} LogsOnlyGrow(s: Sys, steps: seq<Step>, run: RunId)
    requires WellFormed(s.table.rows)
    ensures LogOf(s, run) <= LogOf(Exec(s, steps), run)
    ensures |LogOf(Exec(s, steps), run)| == |LogOf(s, run)| + CountAppends(s, steps, run)
  {
    if steps == [] {
    } else {
      var n := |steps| - 1;
      LogsOnlyGrow(s, steps[..n], run);
      ExecWellFormed(s, steps[..n]);
      StepLog(Exec(s, steps[..n]), steps[n], run);
    }
  }

  // ---- the freeze ----

  ghost predicate UpdatesState(steps: seq<Step>, run: RunId) {
    exists i :: 0 <= i < |steps| && steps[i].UpdateState? && steps[i].run == run
  }

  lemma {:induction false} FreezeStep(s: Sys, step: Step, run: RunId)
    requires WellFormed(s.table.rows) && TerminalRun(s.table, run)
    requires !(step.UpdateState? && step.run == run)
    ensures LogOf(Next(s, step), run) == LogOf(s, run)
    ensures TerminalRun(Next(s, step).table, run)
  {
    StepLog(s, step, run);
    if step.Write? && step.w in s.writers {
      AppendEffect(s.table, MakeEvent(s.writers[step.w]));
    }
  }

  /** While the stored state of a run is terminal, no writer can change its log. */
  lemma {:induction false} TerminalFreezesLog(s: Sys, steps: seq<Step>, run: RunId)
    requires WellFormed(s.table.rows) && TerminalRun(s.table, run)
    requires !UpdatesState(steps, run)
    ensures LogOf(Exec(s, steps), run) == LogOf(s, run)
    ensures TerminalRun(Exec(s, steps).table, run)
  {
    if steps == [] {
    } else {
      var n := |steps| - 1;
      assert forall i :: 0 <= i < n ==> steps[..n][i] == steps[i];
      TerminalFreezesLog(s, steps[..n], run);
      ExecWellFormed(s, steps[..n]);
      FreezeStep(Exec(s, steps[..n]), steps[n], run);
    }
  }

  /** No interleaving without an update of the run's state changes its log. */
  ghost predicate Frozen(s: Sys, run: RunId) {
    forall steps :: !UpdatesState(steps, run) ==> LogOf(Exec(s, steps), run) == LogOf(s, run)
  }

  lemma {:induction false} FreshSerial(rows: seq<Event>) returns (n: nat)
    ensures forall i :: 0 <= i < |rows| && rows[i].id.Unique? ==> rows[i].id.serial < n
  {
    if rows == [] {
      n := 0;
    } else {
      var k := |rows| - 1;
      n := FreshSerial(rows[..k]);
      if rows[k].id.Unique? && rows[k].id.serial >= n {
        n := rows[k].id.serial + 1;
      }
      assert forall i :: 0 <= i < k ==> rows[i] == rows[..k][i];
    }
  }

  /** A run whose stored state is not terminal can be written to: one call with a fresh id does it. */
  lemma {:induction false} OpenRunGrows(s: Sys, run: RunId) returns (steps: seq<Step>)
    requires WellFormed(s.table.rows) && !TerminalRun(s.table, run)
    ensures !UpdatesState(steps, run) && |LogOf(Exec(s, steps), run)| == |LogOf(s, run)| + 1
  {
    var n := FreshSerial(s.table.rows);
    var read, write := Step.Read(0, run, Note(Unique(n), PlanReady)), Step.Write(0);
    steps := [read, write];
    Exec2(s, read, write);
    AppendEffect(s.table, MakeEvent(Next(s, read).writers[0]));
  }

  /** A log is frozen exactly when the stored state of its run is terminal, whatever
      events it holds and whatever calls are in flight. */
  lemma FrozenExactlyWhenTerminal(s: Sys, run: RunId)
    requires WellFormed(s.table.rows)
    ensures Frozen(s, run) <==> TerminalRun(s.table, run)
  {
    if TerminalRun(s.table, run) {
      forall steps | !UpdatesState(steps, run)
        ensures LogOf(Exec(s, steps), run) == LogOf(s, run)
      {
        TerminalFreezesLog(s, steps, run);
      }
    } else {
      var steps := OpenRunGrows(s, run);
      assert LogOf(Exec(s, steps), run) != LogOf(s, run);
    }
  }

  /** The same for a table, with any calls pending on it and any streams connected. */
  ghost predicate FrozenTable(t: Table, run: RunId) {
    forall s: Sys :: s.table == t ==> Frozen(s, run)
  }

  ghost predicate OpenTable(t: Table, run: RunId) {
    forall s: Sys :: s.table == t ==> !Frozen(s, run)
  }

  lemma FrozenTableExactlyWhenTerminal(t: Table, run: RunId)
    requires WellFormed(t.rows)
    ensures FrozenTable(t, run) <==> TerminalRun(t, run)
    ensures FrozenTable(t, run) <==> run in t.runs && t.runs[run] in {Completed, Failed, Cancelled}
    ensures OpenTable(t, run) <==> !TerminalRun(t, run)
  {
    forall s: Sys | s.table == t
      ensures Frozen(s, run) <==> TerminalRun(t, run)
    {
      FrozenExactlyWhenTerminal(s, run);
    }
    assert Sys(t, map[], map[]).table == t;
  }

  // ---- resume events ----

  ghost predicate StepsOf(steps: seq<Step>, w: WriterId) {
    exists i :: 0 <= i < |steps| && ((steps[i].Read? || steps[i].Write?) && steps[i].w == w)
  }

  lemma {:induction false} PendingStep(s: Sys, step: Step, w: WriterId)
    requires w in s.writers && !((step.Read? || step.Write?) && step.w == w)
    ensures w in Next(s, step).writers && Next(s, step).writers[w] == s.writers[w]
  {
  }

  lemma {:induction false} PendingStays(s: Sys, steps: seq<Step>, w: WriterId)
    requires w in s.writers && !StepsOf(steps, w)
    ensures w in Exec(s, steps).writers && Exec(s, steps).writers[w] == s.writers[w]
  {
    if steps == [] {
    } else {
      var n := |steps| - 1;
      assert !StepsOf(steps[..n], w) by {
        assert forall i :: 0 <= i < n ==> steps[..n][i] == steps[i];
      }
      PendingStays(s, steps[..n], w);
      PendingStep(Exec(s, steps[..n]), steps[n], w);
    }
  }

  /** A resume call reads at `s`, others interleave in `mid`, then it writes. If the
      write is accepted, the stored event's distance from the seq it recorded is the
      number of appends to its run that fell in between; so it records the seq just
      before itself exactly when there was none. */
  lemma {:induction false} ResumeDistance(s: Sys, w: WriterId, run: RunId, id: EventId, kind: ResumeKind,
      mid: seq<Step>)
    requires SysOk(s) && !StepsOf(mid, w)
    ensures var s1 := Next(s, Read(w, run, Resume(id, kind)));
      var s2 := Exec(s1, mid);
      && w in s2.writers
      && var out := Append(s2.table, MakeEvent(s2.writers[w])).1;
      var between := CountAppends(s1, mid, run);
      out.Appended? ==>
        && LogOf(Next(s2, Write(w)), run) == LogOf(s2, run) + [out.event]
        && out.event.body == Resumed(kind, |LogOf(s, run)|)
        && out.event.num == out.event.body.resumedFrom + 1 + between
        && (out.event.body.resumedFrom == out.event.num - 1 <==> between == 0)
  {
    var s1 := Next(s, Read(w, run, Resume(id, kind)));
    StepKeeps(s, Read(w, run, Resume(id, kind)));
    MaxSeqIsLength(s.table.rows, run);
    PendingStays(s1, mid, w);
    LogsOnlyGrow(s1, mid, run);
    ExecKeeps(s1, mid);
    var s2 := Exec(s1, mid);
    AppendEffect(s2.table, MakeEvent(s2.writers[w]));
  }

  // ---- streams ----

  /** Whatever the interleaving, the frames of a stream are one gap-free ascending
      segment of the run's log, starting just after `last_seen_seq` or at the very
      beginning; once a queried batch is out, the segment reaches the log's end at
      that query. */
  lemma {:induction false} StreamIsSegment(steps: seq<Step>, r: ReaderId)
    requires r in Exec(INITIAL, steps).readers
    ensures var s := Exec(INITIAL, steps);
      var rd := s.readers[r];
      var log, frames := LogOf(s, rd.stream.run), rd.stream.frames;
      && rd.start + |frames| <= |log|
      && frames == log[rd.start..rd.start + |frames|]
      && (rd.start == 0 || rd.start == rd.stream.lastSeen)
      && (forall i :: 0 <= i < |frames| ==> frames[i].num == rd.start + i + 1)
      && (rd.batch == [] ==> rd.start + |frames| == rd.seen)
      && !rd.stream.closed
  {
    InitialOk();
    ExecKeeps(INITIAL, steps);
    var s := Exec(INITIAL, steps);
    var rd := s.readers[r];
    var log, frames := LogOf(s, rd.stream.run), rd.stream.frames;
    assert ReaderOk(rd, log);
    assert (frames + rd.batch)[..|frames|] == frames;
    assert log[rd.start..rd.seen][..|frames|] == log[rd.start..rd.start + |frames|];
  }

  ghost predicate Disconnects(steps: seq<Step>, r: ReaderId) {
    exists i :: 0 <= i < |steps| && steps[i] == Disconnect(r)
  }

  ghost predicate Wakes(steps: seq<Step>, r: ReaderId) {
    exists i :: 0 <= i < |steps| && steps[i] == Wake(r)
  }

  lemma {:induction false} NextReader(s: Sys, step: Step, r: ReaderId)
    requires r in s.readers && step != Disconnect(r)
    ensures r in Next(s, step).readers
    ensures var rd, rd' := s.readers[r], Next(s, step).readers[r];
      rd' == rd || (rd' == StepReader(s.table.rows, rd, step) && (step.Wake? ==> step == Wake(r)))
  {
  }

  lemma {:induction false} ReaderStepStable(s: Sys, step: Step, r: ReaderId)
    requires SysOk(s) && r in s.readers && !s.readers[r].phase.Connected? && step != Disconnect(r)
    ensures r in Next(s, step).readers
    ensures var rd, rd' := s.readers[r], Next(s, step).readers[r];
      && rd'.stream.run == rd.stream.run && rd'.stream.lastSeen == rd.stream.lastSeen
      && rd'.start == rd.start && !rd'.phase.Connected?
      && (step != Wake(r) ==> rd'.seen == rd.seen)
  {
    NextReader(s, step, r);
    StepReaderFixes(s.readers[r], s.table.rows, step);
  }

  /** A connected stream keeps its run, its cursor and, once replayed, its start. */
  lemma {:induction false} ReaderStable(s: Sys, steps: seq<Step>, r: ReaderId)
    requires SysOk(s) && r in s.readers && !s.readers[r].phase.Connected?
    requires !Disconnects(steps, r)
    ensures r in Exec(s, steps).readers
    ensures var rd, rd' := s.readers[r], Exec(s, steps).readers[r];
      && rd'.stream.run == rd.stream.run && rd'.stream.lastSeen == rd.stream.lastSeen
      && rd'.start == rd.start && !rd'.phase.Connected?
      && (!Wakes(steps, r) ==> rd'.seen == rd.seen)
  {
    if steps == [] {
    } else {
      var n := |steps| - 1;
      assert forall i :: 0 <= i < n ==> steps[..n][i] == steps[i];
      ReaderStable(s, steps[..n], r);
      ExecKeeps(s, steps[..n]);
      ReaderStepStable(Exec(s, steps[..n]), steps[n], r);
    }
  }

  /** A wake-up at `s` delivers everything stored by then: when its batch is out, and
      whatever was appended meanwhile, the frames end at the log that `s` had. */
  lemma {:induction false} WakeDeliversLog(s: Sys, r: ReaderId, mid: seq<Step>)
    requires SysOk(s) && r in s.readers && s.readers[r].phase.Tailing? && s.readers[r].batch == []
    requires !Disconnects(mid, r) && !Wakes(mid, r)
    ensures r in Exec(Next(s, Wake(r)), mid).readers
    ensures var rd := Exec(Next(s, Wake(r)), mid).readers[r];
      rd.batch == [] ==>
        && rd.start <= |LogOf(s, rd.stream.run)|
        && rd.stream.frames == LogOf(s, rd.stream.run)[rd.start..]
  {
    var s1 := Next(s, Wake(r));
    var run := s.readers[r].stream.run;
    var log := LogOf(s, run);
    WakeShape(s.readers[r], s.table.rows, log);
    StepKeeps(s, Wake(r));
    ReaderStable(s1, mid, r);
    ExecKeeps(s1, mid);
    LogsOnlyGrow(s1, mid, run);
    SegmentOfPrefix(Exec(s1, mid).readers[r], log, LogOf(Exec(s1, mid), run));
  }

  lemma SegmentOfPrefix(rd: Reader, log: seq<Event>, later: seq<Event>)
    requires ReaderOk(rd, later) && log <= later && rd.seen == |log|
    ensures rd.batch == [] ==> rd.stream.frames == log[rd.start..]
  {
    if rd.batch == [] {
      assert rd.stream.frames + [] == rd.stream.frames;
      assert later[rd.start..|log|] == log[rd.start..];
    }
  }

  lemma FramesNumbered(rd: Reader, log: seq<Event>)
    requires ReaderOk(rd, log) && Numbered(log)
    ensures forall i :: 0 <= i < |rd.stream.frames| ==> rd.stream.frames[i].num == rd.start + i + 1
  {
    var frames := rd.stream.frames;
    assert forall i :: 0 <= i < |frames| ==> frames[i] == (frames + rd.batch)[i] == log[rd.start + i];
  }

  lemma ReplayStart(s: Sys, r: ReaderId)
    requires SysOk(s) && r in s.readers && s.readers[r].phase.Connected?
    ensures r in Next(s, Replay(r)).readers
    ensures var rd, rd' := s.readers[r], Next(s, Replay(r)).readers[r];
      var n := |LogOf(s, rd.stream.run)|;
      var from := Clamp(rd.stream.lastSeen, n);
      rd'.phase.Replaying? && rd'.stream == rd.stream && rd'.start == if from == n then 0 else from
  {
    var rd := s.readers[r];
    assert ReaderOk(rd, LogOf(s, rd.stream.run));
    ReplayShape(rd, s.table.rows, LogOf(s, rd.stream.run));
    assert Next(s, Replay(r)).readers[r] == ReplayReader(s.table.rows, rd);
  }

  lemma {:induction false} AfterReplay(s: Sys, r: ReaderId, mid: seq<Step>)
    requires SysOk(s) && r in s.readers && s.readers[r].phase.Connected?
    requires !Disconnects(mid, r)
    ensures r in Exec(Next(s, Replay(r)), mid).readers
    ensures var frames := Exec(Next(s, Replay(r)), mid).readers[r].stream.frames;
      var n := |LogOf(s, s.readers[r].stream.run)|;
      var from := Clamp(s.readers[r].stream.lastSeen, n);
      forall i :: 0 <= i < |frames| ==> frames[i].num == (if from == n then 0 else from) + i + 1
  {
    var s1 := Next(s, Replay(r));
    ReplayStart(s, r);
    StepKeeps(s, Replay(r));
    ReaderStable(s1, mid, r);
    ExecKeeps(s1, mid);
    var s2 := Exec(s1, mid);
    FramesNumbered(s2.readers[r], LogOf(s2, s2.readers[r].stream.run));
  }

  /** A stream sends an event that its client already has exactly when the client
      reconnected with a positive cursor at the very end of the log: the empty
      replay leaves nothing to take a maximum of, and the cutoff falls back to 0. */
  lemma {:induction false} ResendsExactly(s: Sys, r: ReaderId, mid: seq<Step>)
    requires SysOk(s) && r in s.readers && s.readers[r].phase.Connected?
    requires !Disconnects(mid, r)
    ensures r in Exec(Next(s, Replay(r)), mid).readers
    ensures var frames := Exec(Next(s, Replay(r)), mid).readers[r].stream.frames;
      var lastSeen := s.readers[r].stream.lastSeen;
      frames != [] ==>
        ((exists i :: 0 <= i < |frames| && frames[i].num <= lastSeen)
         <==> lastSeen > 0 && lastSeen == |LogOf(s, s.readers[r].stream.run)|)
  {
    AfterReplay(s, r, mid);
    var frames := Exec(Next(s, Replay(r)), mid).readers[r].stream.frames;
    assert ReaderOk(s.readers[r], LogOf(s, s.readers[r].stream.run));
    if frames != [] {
      var first := frames[0].num;
      assert forall i :: 0 <= i < |frames| ==> frames[i].num == first + i;
    }
  }

  lemma {:induction false} Exec3(s: Sys, a: Step, b: Step, c: Step)
    ensures Exec(s, [a, b, c]) == Next(Next(Next(s, a), b), c)
  {
    assert [a, b, c][..2] == [a, b] && [a, b][..1] == [a] && [a][..0] == [];
    assert Exec(s, [a]) == Next(s, a) && Exec(s, [a, b]) == Next(Next(s, a), b);
  }

  lemma {:induction false} Exec5(s: Sys, a: Step, b: Step, c: Step, d: Step, e: Step)
    ensures Exec(s, [a, b, c, d, e]) == Next(Next(Exec(s, [a, b, c]), d), e)
  {
    assert [a, b, c, d, e][..4] == [a, b, c, d] && [a, b, c, d][..3] == [a, b, c];
    assert Exec(s, [a, b, c, d]) == Next(Exec(s, [a, b, c]), d);
  }

  const EXAMPLE_NOTE := Note(ForRun("run", VerbCreated), RunCreated)
  const EXAMPLE_EVENT := Event(ForRun("run", VerbCreated), "run", 1, RunCreated)
  const EXAMPLE_LOGGED := Sys(Table(map["run" := RunState.Created], [EXAMPLE_EVENT]), map[], map[])

  lemma FirstAppend(t: Table, event: Event)
    requires t.rows == [] && !TerminalRun(t, event.run)
    ensures Append(t, event).0 == t.(rows := [event.(num := 1)])
  {
    assert t.rows + [event.(num := 1)] == [event.(num := 1)];
  }

  lemma {:induction false} ExampleWrites()
    ensures Exec(INITIAL, [CreateRun("run"), Read(0, "run", EXAMPLE_NOTE), Write(0)]) == EXAMPLE_LOGGED
    ensures LogOf(EXAMPLE_LOGGED, "run") == [EXAMPLE_EVENT]
  {
    Exec3(INITIAL, CreateRun("run"), Read(0, "run", EXAMPLE_NOTE), Write(0));
    var s1 := Next(INITIAL, CreateRun("run"));
    assert s1 == Sys(Table(map["run" := RunState.Created], []), map[], map[]);
    var s2 := Next(s1, Read(0, "run", EXAMPLE_NOTE));
    assert s2 == s1.(writers := map[0 := Pending("run", 0, EXAMPLE_NOTE)]);
    FirstAppend(s2.table, EXAMPLE_EVENT);
    assert s2.writers - {0} == map[];
    RowsOfSnoc([], EXAMPLE_EVENT, "run");
  }

  lemma {:induction false} TipReplay(s: Sys, run: RunId, r: ReaderId)
    requires SysOk(s) && r !in s.readers && LogOf(s, run) != []
    ensures var s' := Exec(s, [Connect(r, run, |LogOf(s, run)|), Replay(r), Subscribe(r)]);
      && s'.table == s.table && r in s'.readers
      && s'.readers[r] == Reader(Stream(run, |LogOf(s, run)|, {}, [], false), Tailing, [], 0, 0)
  {
    var n := |LogOf(s, run)|;
    Exec3(s, Connect(r, run, n), Replay(r), Subscribe(r));
    MaxSeqIsLength(s.table.rows, run);
    ReplayShape(Next(s, Connect(r, run, n)).readers[r], s.table.rows, LogOf(s, run));
  }

  lemma WakeStep(s: Sys, r: ReaderId)
    requires r in s.readers && s.readers[r].phase.Tailing? && s.readers[r].batch == [] && !s.readers[r].stream.closed
    ensures Next(s, Wake(r)) == s.(readers := s.readers[r := WakeReader(s.table.rows, s.readers[r])])
  {
  }

  lemma TipQuery(s: Sys, r: ReaderId, log: seq<Event>, run: RunId)
    requires r in s.readers && log == LogOf(s, run) && log != [] && Numbered(log)
    requires s.readers[r] == Reader(Stream(run, |log|, {}, [], false), Tailing, [], 0, 0)
    ensures var s' := Next(s, Wake(r));
      r in s'.readers && s'.readers[r] == Reader(Stream(run, |log|, {}, [], false), Tailing, log, 0, |log|)
  {
    var rd := s.readers[r];
    WakeStep(s, r);
    assert ReaderOk(rd, log) by {
      assert rd.stream.frames + rd.batch == log[0..0];
    }
    WakeShape(rd, s.table.rows, log);
    assert log[0..] == log;
  }

  lemma TipYield(s: Sys, r: ReaderId, log: seq<Event>, run: RunId)
    requires r in s.readers && log != [] && Numbered(log)
    requires s.readers[r] == Reader(Stream(run, |log|, {}, [], false), Tailing, log, 0, |log|)
    ensures var s' := Next(s, Yield(r));
      r in s'.readers && s'.readers[r].stream == Stream(run, |log|, {log[0].num}, [log[0]], false)
  {
    assert [] + log == log[0..|log|];
    YieldShape(s.readers[r], log);
  }

  /** The failing case in full: a client that holds the whole log and reconnects with
      `last_seen_seq` equal to its latest seq is sent event 1 again at the first wake-up. */
  lemma {:induction false} TipReconnectResends(s: Sys, run: RunId, r: ReaderId)
    requires SysOk(s) && r !in s.readers && LogOf(s, run) != []
    ensures var s' := Exec(s, [Connect(r, run, |LogOf(s, run)|), Replay(r), Subscribe(r), Wake(r), Yield(r)]);
      && r in s'.readers
      && s'.readers[r].stream.frames == [LogOf(s, run)[0]]
      && s'.readers[r].stream.lastSeen == |LogOf(s, run)|
  {
    var log := LogOf(s, run);
    TipReplay(s, run, r);
    var replayed := Exec(s, [Connect(r, run, |log|), Replay(r), Subscribe(r)]);
    TipQuery(replayed, r, log, run);
    TipYield(Next(replayed, Wake(r)), r, log, run);
    Exec5(s, Connect(r, run, |log|), Replay(r), Subscribe(r), Wake(r), Yield(r));
  }

  /** One such input: a run with a single event. */
  lemma {:induction false} ResendExample()
    ensures var steps := [CreateRun("run"), Read(0, "run", EXAMPLE_NOTE), Write(0)];
      var s := Exec(Exec(INITIAL, steps), [Connect(7, "run", 1), Replay(7), Subscribe(7), Wake(7), Yield(7)]);
      && 7 in s.readers && s.readers[7].stream.lastSeen == 1
      && s.readers[7].stream.frames == [EXAMPLE_EVENT] && EXAMPLE_EVENT.num == 1
  {
    InitialOk();
    ExecKeeps(INITIAL, [CreateRun("run"), Read(0, "run", EXAMPLE_NOTE), Write(0)]);
    ExampleWrites();
    TipReconnectResends(EXAMPLE_LOGGED, "run", 7);
  }
}
