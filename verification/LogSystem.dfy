/** Concurrent writers and tailing readers over one table: every interleaving of
    their steps. A step that is not enabled leaves the system as it is, so a
    statement about all step sequences is a statement about all interleavings. */
module LogSystem {
  import opened RunEvents
  import opened EventLog
  import opened EventStream

  type WriterId = nat
  type ReaderId = nat

  /** What a service call wants to append. A resume event records the seq that
      the call has read; every other payload is independent of it. */
  datatype Intent =
    | Note(id: EventId, body: Body)
    | Resume(id: EventId, kind: ResumeKind)

  /** A service call between its `latest_seq` read and its `append`. */
  datatype Pending = Pending(run: RunId, latest: nat, intent: Intent)

  function MakeEvent(p: Pending): Event {
    match p.intent
    case Note(id, body) => Event(id, p.run, p.latest + 1, body)
    case Resume(id, kind) => Event(id, p.run, p.latest + 1, Resumed(kind, p.latest))
  }

  datatype ReaderPhase = Connected | Replaying | Tailing

  /** A client stream: `batch` is queried and not yet yielded. `start` and `seen`
      are history: the seq just before the segment, and how long the log was at the
      last wake-up query, or at the replay query if that returned something. */
  datatype Reader = Reader(stream: Stream, phase: ReaderPhase, batch: seq<Event>, start: nat, seen: nat)

  datatype Sys = Sys(table: Table, writers: map<WriterId, Pending>, readers: map<ReaderId, Reader>)

  datatype Step =
    | CreateRun(run: RunId)
    | UpdateState(run: RunId, state: RunState)
    | Read(w: WriterId, run: RunId, intent: Intent)
    | Write(w: WriterId)
    | Connect(r: ReaderId, run: RunId, lastSeen: int)
    | Replay(r: ReaderId)
    | Yield(r: ReaderId)
    | Subscribe(r: ReaderId)
    | Wake(r: ReaderId)
    | Disconnect(r: ReaderId)

  function ReplayReader(rows: seq<Event>, rd: Reader): Reader {
    var batch := ReplayBatch(rows, rd.stream);
    var latest := MaxSeq(rows, rd.stream.run);
    if batch == [] then rd.(phase := Replaying)
    else rd.(phase := Replaying, batch := batch, start := Clamp(rd.stream.lastSeen, latest), seen := latest)
  }

  function WakeReader(rows: seq<Event>, rd: Reader): Reader {
    rd.(batch := TailBatch(rows, rd.stream), seen := MaxSeq(rows, rd.stream.run))
  }

  function YieldReader(rd: Reader): Reader
    requires rd.batch != []
  {
    rd.(stream := EmitOne(rd.stream, rd.batch[0]), batch := rd.batch[1..])
  }

  function StepReader(rows: seq<Event>, rd: Reader, step: Step): Reader {
    if rd.stream.closed then rd
    else
      match step
      case Replay(_) => if rd.phase.Connected? then ReplayReader(rows, rd) else rd
      case Yield(_) => if rd.batch != [] then YieldReader(rd) else rd
      case Subscribe(_) => if rd.phase.Replaying? && rd.batch == [] then rd.(phase := Tailing) else rd
      case Wake(_) => if rd.phase.Tailing? && rd.batch == [] then WakeReader(rows, rd) else rd
      case _ => rd
  }

  function Next(s: Sys, step: Step): Sys {
    match step
    case CreateRun(run) =>
      if run in s.table.runs then s
      else s.(table := s.table.(runs := s.table.runs[run := RunState.Created]))
    case UpdateState(run, state) =>
      if run !in s.table.runs then s
      else s.(table := s.table.(runs := s.table.runs[run := state]))
    case Read(w, run, intent) =>
      if intent.Note? && intent.body.Resumed? then s
      else s.(writers := s.writers[w := Pending(run, MaxSeq(s.table.rows, run), intent)])
    case Write(w) =>
      if w !in s.writers then s
      else s.(table := Append(s.table, MakeEvent(s.writers[w])).0, writers := s.writers - {w})
    case Connect(r, run, lastSeen) =>
      if r in s.readers || lastSeen > MaxSeq(s.table.rows, run) then s
      else s.(readers := s.readers[r := Reader(Stream(run, lastSeen, {}, [], false), Connected, [], 0, 0)])
    case Disconnect(r) => s.(readers := s.readers - {r})
    case Replay(r) => ReaderMove(s, r, step)
    case Yield(r) => ReaderMove(s, r, step)
    case Subscribe(r) => ReaderMove(s, r, step)
    case Wake(r) => ReaderMove(s, r, step)
  }

  function ReaderMove(s: Sys, r: ReaderId, step: Step): Sys {
    if r !in s.readers then s
    else s.(readers := s.readers[r := StepReader(s.table.rows, s.readers[r], step)])
  }

  function Exec(s: Sys, steps: seq<Step>): Sys {
    if steps == [] then s else Next(Exec(s, steps[..|steps| - 1]), steps[|steps| - 1])
  }

  const INITIAL := Sys(Table(map[], []), map[], map[])

  function LogOf(s: Sys, run: RunId): seq<Event> {
    RowsOf(s.table.rows, run)
  }

  /** Yielding a whole batch, whatever happens elsewhere in between, is one run of
      the generator's loop over it. */
  function Drain(rd: Reader): Reader
    decreases |rd.batch|
  {
    if rd.batch == [] then rd else Drain(YieldReader(rd))
  }

  lemma {:induction false} DrainIsEmitAll(rd: Reader)
    ensures Drain(rd) == rd.(stream := EmitAll(rd.stream, rd.batch), batch := [])
    decreases |rd.batch|
  {
    if rd.batch == [] {
    } else {
      DrainIsEmitAll(YieldReader(rd));
      EmitAllHead(rd.stream, rd.batch);
    }
  }

  lemma {:induction false} EmitAllHead(s: Stream, batch: seq<Event>)
    requires batch != []
    ensures EmitAll(s, batch) == EmitAll(EmitOne(s, batch[0]), batch[1..])
    decreases |batch|
  {
    var n := |batch| - 1;
    if n == 0 {
      assert batch[..0] == [] && batch[1..] == [];
    } else {
      EmitAllHead(s, batch[..n]);
      assert batch[..n][1..] == batch[1..][..n - 1];
    }
  }

  // ---- the invariant ----

  /** The yielded frames and the frames still to be yielded are one segment of the log. */
  ghost predicate ReaderOk(rd: Reader, log: seq<Event>) {
    && !rd.stream.closed
    && rd.start <= rd.seen <= |log|
    && rd.stream.frames + rd.batch == log[rd.start..rd.seen]
    && rd.stream.emitted == Nums(rd.stream.frames)
    && rd.stream.lastSeen <= |log|
    && (rd.start == 0 || rd.start == rd.stream.lastSeen)
    && (rd.start < rd.seen ==> rd.stream.lastSeen <= rd.seen)
    && (rd.start == rd.seen ==> rd.start == 0)
    && (rd.phase.Connected? ==> rd.seen == 0)
  }

  ghost predicate SysOk(s: Sys) {
    && WellFormed(s.table.rows)
    && ResumesPointBack(s.table.rows)
    && (forall w :: w in s.writers ==>
          && s.writers[w].latest <= |LogOf(s, s.writers[w].run)|
          && (s.writers[w].intent.Note? ==> !s.writers[w].intent.body.Resumed?))
    && (forall r :: r in s.readers ==> ReaderOk(s.readers[r], LogOf(s, s.readers[r].stream.run)))
  }

  /** A step extends each log by at most one row, and only a successful write does. */
  ghost predicate Appends(s: Sys, step: Step, run: RunId) {
    && step.Write? && step.w in s.writers && s.writers[step.w].run == run
    && Append(s.table, MakeEvent(s.writers[step.w])).1.Appended?
  }

  lemma {:induction false} StepLog(s: Sys, step: Step, run: RunId)
    requires WellFormed(s.table.rows)
    ensures WellFormed(Next(s, step).table.rows)
    ensures LogOf(Next(s, step), run) ==
      LogOf(s, run) +
        (if Appends(s, step, run) then [MakeEvent(s.writers[step.w]).(num := |LogOf(s, run)| + 1)] else [])
  {
    if step.Write? && step.w in s.writers {
      AppendEffect(s.table, MakeEvent(s.writers[step.w]));
    } else {
      assert Next(s, step).table.rows == s.table.rows;
      assert LogOf(s, run) + [] == LogOf(s, run);
    }
  }

  lemma ReaderOkGrows(rd: Reader, log: seq<Event>, log': seq<Event>)
    requires ReaderOk(rd, log) && log <= log'
    ensures ReaderOk(rd, log')
  {
    assert log'[rd.start..rd.seen] == log[rd.start..rd.seen];
  }

  lemma {:induction false} ReplayShape(rd: Reader, rows: seq<Event>, log: seq<Event>)
    requires log == RowsOf(rows, rd.stream.run) && Numbered(log)
    ensures var from := Clamp(rd.stream.lastSeen, |log|);
      ReplayReader(rows, rd) ==
      if from == |log| then rd.(phase := Replaying)
      else rd.(phase := Replaying, batch := log[from..], start := from, seen := |log|)
  {
    BatchIsSlice(rows, rd.stream.run, rd.stream.lastSeen);
    MaxSeqIsLength(rows, rd.stream.run);
  }

  /** Before its replay a stream has yielded nothing, so any tail of the log is a segment. */
  lemma FreshSegment(rd: Reader, log: seq<Event>, from: nat)
    requires ReaderOk(rd, log) && rd.phase.Connected? && from == Clamp(rd.stream.lastSeen, |log|)
    ensures ReaderOk(rd.(phase := Replaying), log)
    ensures from < |log| ==> ReaderOk(rd.(phase := Replaying, batch := log[from..], start := from, seen := |log|), log)
  {
    assert rd.stream.frames + rd.batch == [];
    assert rd.stream.frames == [] && rd.batch == [];
    assert [] + log[from..] == log[from..|log|];
  }

  lemma {:induction false} ReplayKeeps(rd: Reader, rows: seq<Event>, log: seq<Event>)
    requires log == RowsOf(rows, rd.stream.run) && Numbered(log) && ReaderOk(rd, log)
    requires rd.phase.Connected?
    ensures ReaderOk(ReplayReader(rows, rd), log)
  {
    ReplayShape(rd, rows, log);
    FreshSegment(rd, log, Clamp(rd.stream.lastSeen, |log|));
  }

  /** With nothing left to yield, the next query asks for exactly what lies beyond `seen`. */
  lemma CutoffIsSeen(rd: Reader, log: seq<Event>)
    requires Numbered(log) && ReaderOk(rd, log) && rd.batch == []
    ensures Cutoff(rd.stream) == rd.seen
  {
    var frames := rd.stream.frames;
    assert frames == log[rd.start..rd.seen];
    if frames == [] {
    } else {
      NumsMember(frames, frames[|frames| - 1].num);
      NumsMember(frames, MaxOf(Nums(frames)));
      var i :| 0 <= i < |frames| && frames[i].num == MaxOf(Nums(frames));
      assert frames[i] == log[rd.start + i] && frames[|frames| - 1] == log[rd.seen - 1];
    }
  }

  lemma {:induction false} WakeShape(rd: Reader, rows: seq<Event>, log: seq<Event>)
    requires log == RowsOf(rows, rd.stream.run) && Numbered(log) && ReaderOk(rd, log) && rd.batch == []
    ensures WakeReader(rows, rd) == rd.(batch := log[rd.seen..], seen := |log|)
  {
    CutoffIsSeen(rd, log);
    BatchIsSlice(rows, rd.stream.run, rd.seen);
    MaxSeqIsLength(rows, rd.stream.run);
  }

  /** With nothing queued, the rest of the log extends the segment to the log's end. */
  lemma ExtendSegment(rd: Reader, log: seq<Event>)
    requires ReaderOk(rd, log) && !rd.phase.Connected? && rd.batch == []
    ensures ReaderOk(rd.(batch := log[rd.seen..], seen := |log|), log)
  {
    var frames := rd.stream.frames;
    assert frames + [] == frames;
    calc {
      frames + log[rd.seen..];
      log[rd.start..rd.seen] + log[rd.seen..|log|];
      { JoinSegments(log, rd.start, rd.seen, |log|); }
      log[rd.start..|log|];
    }
  }

  lemma {:induction false} WakeKeeps(rd: Reader, rows: seq<Event>, log: seq<Event>)
    requires log == RowsOf(rows, rd.stream.run) && Numbered(log) && ReaderOk(rd, log)
    requires rd.phase.Tailing? && rd.batch == []
    ensures ReaderOk(WakeReader(rows, rd), log)
  {
    WakeShape(rd, rows, log);
    ExtendSegment(rd, log);
  }

  /** A queued frame is new, so it is yielded, and it does not close the stream. */
  lemma YieldShape(rd: Reader, log: seq<Event>)
    requires Numbered(log) && ReaderOk(rd, log) && rd.batch != []
    ensures var e := rd.batch[0];
      YieldReader(rd) ==
      rd.(stream := rd.stream.(emitted := rd.stream.emitted + {e.num}, frames := rd.stream.frames + [e]),
        batch := rd.batch[1..])
  {
    var frames, e := rd.stream.frames, rd.batch[0];
    var all := frames + rd.batch;
    assert e == all[|frames|] == log[rd.start + |frames|];
    NumsMember(frames, e.num);
    forall i | 0 <= i < |frames|
      ensures frames[i].num != e.num
    {
      assert frames[i] == all[i] == log[rd.start + i];
    }
    NoTypeCloses(e.body);
  }

  lemma YieldKeeps(rd: Reader, log: seq<Event>)
    requires Numbered(log) && ReaderOk(rd, log) && rd.batch != []
    ensures ReaderOk(YieldReader(rd), log)
  {
    var frames, e := rd.stream.frames, rd.batch[0];
    YieldShape(rd, log);
    assert frames + [e] + rd.batch[1..] == frames + rd.batch;
    assert (frames + [e])[..|frames|] == frames;
  }

  /** A step of a stream leaves its run and its cursor, and once replayed its start. */
  lemma {:induction false} StepReaderFixes(rd: Reader, rows: seq<Event>, step: Step)
    ensures var rd' := StepReader(rows, rd, step);
      && rd'.stream.run == rd.stream.run && rd'.stream.lastSeen == rd.stream.lastSeen
      && (!rd.phase.Connected? ==> rd'.start == rd.start && !rd'.phase.Connected?)
  {
  }

  lemma {:induction false} StepReaderKeeps(rd: Reader, rows: seq<Event>, log: seq<Event>, step: Step)
    requires log == RowsOf(rows, rd.stream.run) && Numbered(log) && ReaderOk(rd, log)
    ensures ReaderOk(StepReader(rows, rd, step), log)
  {
    match step {
      case Replay(_) => if rd.phase.Connected? { ReplayKeeps(rd, rows, log); }
      case Yield(_) => if rd.batch != [] { YieldKeeps(rd, log); }
      case Wake(_) => if rd.phase.Tailing? && rd.batch == [] { WakeKeeps(rd, rows, log); }
      case _ =>
    }
  }

  lemma {:induction false} PendingKeeps(s: Sys, step: Step, w: WriterId)
    requires SysOk(s) && w in Next(s, step).writers
    ensures var s' := Next(s, step);
      && s'.writers[w].latest <= |LogOf(s', s'.writers[w].run)|
      && (s'.writers[w].intent.Note? ==> !s'.writers[w].intent.body.Resumed?)
  {
    var p := Next(s, step).writers[w];
    StepLog(s, step, p.run);
    MaxSeqIsLength(s.table.rows, p.run);
  }

  /** A resume event records a seq that the log had reached, so it points back. */
  lemma {:induction false} ResumesKeep(s: Sys, step: Step)
    requires SysOk(s)
    ensures ResumesPointBack(Next(s, step).table.rows)
  {
    if step.Write? && step.w in s.writers {
      AppendEffect(s.table, MakeEvent(s.writers[step.w]));
    }
  }

  /** Where a stream of the next state comes from. */
  lemma {:induction false} ReaderOrigin(s: Sys, step: Step, r: ReaderId)
    requires r in Next(s, step).readers
    ensures var s' := Next(s, step);
      || (r in s.readers && s'.readers[r] == s.readers[r])
      || (r in s.readers && s'.table == s.table && s'.readers[r] == StepReader(s.table.rows, s.readers[r], step))
      || (s'.table == s.table && step.Connect? && step.lastSeen <= MaxSeq(s.table.rows, step.run)
          && s'.readers[r] == Reader(Stream(step.run, step.lastSeen, {}, [], false), Connected, [], 0, 0))
  {
  }

  lemma {:induction false} OneReaderKeeps(s: Sys, step: Step, r: ReaderId)
    requires SysOk(s) && r in Next(s, step).readers
    ensures var s' := Next(s, step); ReaderOk(s'.readers[r], LogOf(s', s'.readers[r].stream.run))
  {
    var s' := Next(s, step);
    ReaderOrigin(s, step, r);
    if r in s.readers && s'.readers[r] == s.readers[r] {
      var run := s.readers[r].stream.run;
      StepLog(s, step, run);
      ReaderOkGrows(s.readers[r], LogOf(s, run), LogOf(s', run));
    } else if r in s.readers && s'.readers[r] == StepReader(s.table.rows, s.readers[r], step) {
      StepReaderFixes(s.readers[r], s.table.rows, step);
      StepReaderKeeps(s.readers[r], s.table.rows, LogOf(s, s.readers[r].stream.run), step);
    } else {
      MaxSeqIsLength(s.table.rows, step.run);
    }
  }

  lemma {:induction false} ReaderStepKeeps(s: Sys, step: Step)
    requires SysOk(s)
    ensures var s' := Next(s, step);
      forall r :: r in s'.readers ==> ReaderOk(s'.readers[r], LogOf(s', s'.readers[r].stream.run))
  {
    forall r | r in Next(s, step).readers
      ensures var s' := Next(s, step); ReaderOk(s'.readers[r], LogOf(s', s'.readers[r].stream.run))
    {
      OneReaderKeeps(s, step, r);
    }
  }

  lemma {:induction false} StepKeeps(s: Sys, step: Step)
    requires SysOk(s)
    ensures SysOk(Next(s, step))
  {
    StepLog(s, step, "");
    forall w | w in Next(s, step).writers
      ensures var s' := Next(s, step);
        && s'.writers[w].latest <= |LogOf(s', s'.writers[w].run)|
        && (s'.writers[w].intent.Note? ==> !s'.writers[w].intent.body.Resumed?)
    {
      PendingKeeps(s, step, w);
    }
    ResumesKeep(s, step);
    ReaderStepKeeps(s, step);
  }

  lemma {:induction false} ExecKeeps(s: Sys, steps: seq<Step>)
    requires SysOk(s)
    ensures SysOk(Exec(s, steps))
  {
    if steps == [] {
    } else {
      ExecKeeps(s, steps[..|steps| - 1]);
      StepKeeps(Exec(s, steps[..|steps| - 1]), steps[|steps| - 1]);
    }
  }
}
