/** The SSE stream of one run: replay, then tail. */
module EventStream {
  import opened Prelude
  import opened RunEvents
  import opened EventLog

  /** The state names that `_build_stream` compares event types with. */
  const TERMINAL_STATES: set<string> := {"completed", "failed", "cancelled"}

  /** The generator's local state, and the frames it has yielded so far. */
  datatype Stream = Stream(run: RunId, lastSeen: int, emitted: set<nat>, frames: seq<Event>, closed: bool)

  function EmitOne(s: Stream, e: Event): Stream {
    if s.closed || e.num in s.emitted then s
    else s.(emitted := s.emitted + {e.num}, frames := s.frames + [e], closed := TypeName(e.body) in TERMINAL_STATES)
  }

  function EmitAll(s: Stream, batch: seq<Event>): Stream {
    if batch == [] then s else EmitOne(EmitAll(s, batch[..|batch| - 1]), batch[|batch| - 1])
  }

  lemma {:induction false} MaxExists(s: set<nat>)
    requires s != {}
    ensures exists m :: m in s && forall x :: x in s ==> x <= m
  {
    var a :| a in s;
    if s == {a} {
    } else {
      MaxExists(s - {a});
      var m :| m in s - {a} && forall x :: x in s - {a} ==> x <= m;
      var top := if a > m then a else m;
      assert forall x :: x in s ==> x == a || x in s - {a};
      assert top in s && forall x :: x in s ==> x <= top;
    }
  }

  function MaxOf(s: set<nat>): (m: nat)
    requires s != {}
    ensures m in s && forall x :: x in s ==> x <= m
  {
    MaxExists(s);
    var m :| m in s && forall x :: x in s ==> x <= m;
    m
  }

  function Cutoff(s: Stream): int {
    if s.emitted == {} then 0
    else
      var m := MaxOf(s.emitted);
      if s.lastSeen > m then s.lastSeen else m
  }

  function ReplayBatch(rows: seq<Event>, s: Stream): seq<Event> {
    SortBySeq(ListEvents(rows, s.run, s.lastSeen, None))
  }

  function TailBatch(rows: seq<Event>, s: Stream): seq<Event> {
    SortBySeq(ListEvents(rows, s.run, Cutoff(s), None))
  }

  /** A batch is the slice of the run's log after `since`, in order. */
  lemma {:induction false} BatchIsSlice(rows: seq<Event>, run: RunId, since: int)
    requires Numbered(RowsOf(rows, run))
    ensures var log := RowsOf(rows, run);
      SortBySeq(ListEvents(rows, run, since, None)) == log[Clamp(since, |log|)..]
  {
    var log := RowsOf(rows, run);
    ListIsSlice(rows, run, since, None);
    SortOfAscending(log[Clamp(since, |log|)..]);
  }

  /** An event type is never one of the bare state names, so no frame closes the stream. */
  lemma NoTypeCloses(b: Body)
    ensures TypeName(b) !in TERMINAL_STATES
  {
    assert TypeName(b)[0] == 'r';
    assert forall t :: t in TERMINAL_STATES ==> t[0] != 'r';
  }

  /** The seqs of a batch. */
  function Nums(batch: seq<Event>): set<nat> {
    if batch == [] then {} else Nums(batch[..|batch| - 1]) + {batch[|batch| - 1].num}
  }

  lemma {:induction false} NumsMember(batch: seq<Event>, x: nat)
    ensures x in Nums(batch) <==> exists i :: 0 <= i < |batch| && batch[i].num == x
  {
    if batch == [] {
    } else {
      var n := |batch| - 1;
      NumsMember(batch[..n], x);
      if i :| 0 <= i < |batch| && batch[i].num == x {
        assert i == n || batch[..n][i].num == x;
      }
    }
  }

  /** A batch of unseen, distinct seqs is emitted whole and in order. */
  lemma {:induction false} EmitAllFresh(s: Stream, batch: seq<Event>)
    requires !s.closed && Ascending(batch)
    requires forall i :: 0 <= i < |batch| ==> batch[i].num !in s.emitted
    ensures EmitAll(s, batch) == s.(frames := s.frames + batch, emitted := s.emitted + Nums(batch))
  {
    if batch == [] {
    } else {
      var n := |batch| - 1;
      EmitAllFresh(s, batch[..n]);
      NoTypeCloses(batch[n].body);
      NumsMember(batch[..n], batch[n].num);
      assert s.frames + batch[..n] + [batch[n]] == s.frames + batch;
    }
  }

  /** Once closed, a stream ignores the rest of the batch. */
  lemma {:induction false} ClosedIgnoresRest(s: Stream, batch: seq<Event>, i: nat)
    requires i <= |batch| && EmitAll(s, batch[..i]).closed
    ensures EmitAll(s, batch) == EmitAll(s, batch[..i])
  {
    if i == |batch| {
      assert batch[..i] == batch;
    } else {
      var n := |batch| - 1;
      assert batch[..n][..i] == batch[..i];
      ClosedIgnoresRest(s, batch[..n], i);
    }
  }

  /** The generator: it grows `emittedSeqs` as it yields. */
  class StreamGenerator {
    const runId: RunId
    const lastSeenSeq: int
    var emittedSeqs: set<nat>
    var yielded: seq<Event>
    var closed: bool

    function View(): Stream
      reads this
    {
      Stream(runId, lastSeenSeq, emittedSeqs, yielded, closed)
    }

    constructor (runId: RunId, lastSeenSeq: int)
      ensures View() == Stream(runId, lastSeenSeq, {}, [], false)
    {
      this.runId := runId;
      this.lastSeenSeq := lastSeenSeq;
      emittedSeqs, yielded, closed := {}, [], false;
    }

    /** One `for ev in sorted(events)` loop, with its early return. */
    method EmitBatch(events: seq<Event>)
      requires !closed
      modifies this
      ensures View() == EmitAll(old(View()), SortBySeq(events))
    {
      var batch := SortBySeq(events);
      var i := 0;
      while i < |batch|
        invariant 0 <= i <= |batch|
        invariant !closed
        invariant View() == EmitAll(old(View()), batch[..i])
      {
        var ev := batch[i];
        assert batch[..i + 1][..i] == batch[..i];
        i := i + 1;
        if ev.num in emittedSeqs {
          continue;
        }
        emittedSeqs := emittedSeqs + {ev.num};
        yielded := yielded + [ev];
        closed := TypeName(ev.body) in TERMINAL_STATES;
        if closed {
          ClosedIgnoresRest(old(View()), batch, i);
          return;
        }
      }
      assert batch[..i] == batch;
    }

    /** Phase 1. */
    method Replay(rows: seq<Event>)
      requires !closed
      modifies this
      ensures View() == EmitAll(old(View()), ReplayBatch(rows, old(View())))
    {
      var events := ListEvents(rows, runId, lastSeenSeq, None);
      EmitBatch(events);
    }

    /** Phase 2, the body of `while True` after one wake-up. */
    method Tail(rows: seq<Event>)
      requires !closed
      modifies this
      ensures View() == EmitAll(old(View()), TailBatch(rows, old(View())))
    {
      var cutoff := Cutoff(View());
      var events := ListEvents(rows, runId, cutoff, None);
      EmitBatch(events);
    }
  }
}
