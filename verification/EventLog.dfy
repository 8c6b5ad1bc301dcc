/** The append-only run_events table and the three queries on it. */
module EventLog {
  import opened Prelude
  import opened RunEvents

  /** What `append` reads and writes: the runs table's state column and the rows
      of run_events in insertion order. */
  datatype Table = Table(runs: map<RunId, RunState>, rows: seq<Event>)

  datatype AppendOutcome =
    | Appended(event: Event)
    | RefusedTerminal
    | RefusedDuplicateId

  /** The rows of one run, in insertion order. */
  function RowsOf(rows: seq<Event>, run: RunId): seq<Event> {
    if rows == [] then []
    else
      var n := |rows| - 1;
      RowsOf(rows[..n], run) + (if rows[n].run == run then [rows[n]] else [])
  }

  /** COALESCE(MAX(seq), 0) over one run. */
  function MaxSeq(rows: seq<Event>, run: RunId): nat {
    if rows == [] then 0
    else
      var n := |rows| - 1;
      var m := MaxSeq(rows[..n], run);
      if rows[n].run == run && rows[n].num > m then rows[n].num else m
  }

  predicate IdUsed(rows: seq<Event>, id: EventId) {
    exists i :: 0 <= i < |rows| && rows[i].id == id
  }

  predicate TerminalRun(t: Table, run: RunId) {
    run in t.runs && Terminal(t.runs[run])
  }

  /** One atomic append: the terminal guard, then MAX(seq) + 1 in place of the
      caller's seq, then the insert, which the primary key may refuse. */
  function Append(t: Table, event: Event): (Table, AppendOutcome) {
    if TerminalRun(t, event.run) then (t, RefusedTerminal)
    else if IdUsed(t.rows, event.id) then (t, RefusedDuplicateId)
    else
      var stored := event.(num := MaxSeq(t.rows, event.run) + 1);
      (t.(rows := t.rows + [stored]), Appended(stored))
  }

  /** WHERE seq > since. */
  function Since(log: seq<Event>, since: int): seq<Event> {
    if log == [] then []
    else
      var n := |log| - 1;
      Since(log[..n], since) + (if log[n].num > since then [log[n]] else [])
  }

  function InsertBySeq(e: Event, s: seq<Event>): seq<Event> {
    if s == [] || s[|s| - 1].num <= e.num then s + [e]
    else InsertBySeq(e, s[..|s| - 1]) + [s[|s| - 1]]
  }

  /** ORDER BY seq, and Python's stable `sorted` on seq. */
  function SortBySeq(s: seq<Event>): seq<Event> {
    if s == [] then [] else InsertBySeq(s[|s| - 1], SortBySeq(s[..|s| - 1]))
  }

  function ListEvents(rows: seq<Event>, run: RunId, since: int, limit: Option<nat>): seq<Event> {
    var hits := SortBySeq(Since(RowsOf(rows, run), since));
    if limit.Some? && limit.value < |hits| then hits[..limit.value] else hits
  }

  // ---- well-formed logs ----

  ghost predicate Numbered(log: seq<Event>) {
    forall i :: 0 <= i < |log| ==> log[i].num == i + 1
  }

  /** Every run's rows carry seqs exactly 1..n in insertion order, and ids are unique. */
  ghost predicate WellFormed(rows: seq<Event>) {
    && (forall run :: Numbered(RowsOf(rows, run)))
    && (forall i, j :: 0 <= i < j < |rows| ==> rows[i].id != rows[j].id)
  }

  /** Every stored run.resumed event points strictly before itself. */
  ghost predicate ResumesPointBack(rows: seq<Event>) {
    forall i :: 0 <= i < |rows| && rows[i].body.Resumed? ==> rows[i].body.resumedFrom < rows[i].num
  }

  lemma {:induction false} RowsOfSnoc(rows: seq<Event>, e: Event, run: RunId)
    ensures RowsOf(rows + [e], run) == RowsOf(rows, run) + (if e.run == run then [e] else [])
  {
    assert (rows + [e])[..|rows|] == rows;
  }

  /** Further rows of one run extend its log and no other. */
  lemma {:induction false} RowsOfAdded(rows: seq<Event>, added: seq<Event>, owner: RunId, run: RunId)
    requires forall i :: 0 <= i < |added| ==> added[i].run == owner
    ensures RowsOf(rows + added, run) == RowsOf(rows, run) + (if run == owner then added else [])
  {
    if added == [] {
      assert rows + added == rows;
    } else {
      var front, last := added[..|added| - 1], added[|added| - 1];
      var own := if run == owner then [last] else [];
      var older := if run == owner then front else [];
      calc {
        RowsOf(rows + added, run);
        { assert rows + added == (rows + front) + [last]; }
        RowsOf((rows + front) + [last], run);
        { RowsOfSnoc(rows + front, last, run); }
        RowsOf(rows + front, run) + own;
        { RowsOfAdded(rows, front, owner, run); }
        RowsOf(rows, run) + older + own;
        { assert older + own == if run == owner then added else []; }
        RowsOf(rows, run) + (if run == owner then added else []);
      }
    }
  }

  lemma {:induction false} RowsOfElements(rows: seq<Event>, run: RunId, i: nat)
    requires i < |RowsOf(rows, run)|
    ensures RowsOf(rows, run)[i] in rows && RowsOf(rows, run)[i].run == run
  {
    var n := |rows| - 1;
    if i < |RowsOf(rows[..n], run)| {
      RowsOfElements(rows[..n], run, i);
    }
  }

  /** On a numbered log, MAX(seq) is the number of rows. */
  lemma {:induction false} MaxSeqIsLength(rows: seq<Event>, run: RunId)
    requires Numbered(RowsOf(rows, run))
    ensures MaxSeq(rows, run) == |RowsOf(rows, run)|
  {
    if rows == [] {
    } else {
      var n := |rows| - 1;
      var before, log := RowsOf(rows[..n], run), RowsOf(rows, run);
      assert forall i :: 0 <= i < |before| ==> before[i] == log[i];
      MaxSeqIsLength(rows[..n], run);
      if rows[n].run == run {
        assert log[|before|] == rows[n];
      }
    }
  }

  /** What one append does to every run's log, and that it keeps the table well formed. */
  lemma {:induction false} AppendEffect(t: Table, event: Event)
    requires WellFormed(t.rows)
    ensures var (t', out) := Append(t, event);
      && WellFormed(t'.rows)
      && t'.runs == t.runs
      && (out.RefusedTerminal? <==> TerminalRun(t, event.run))
      && (out.RefusedDuplicateId? <==> !TerminalRun(t, event.run) && IdUsed(t.rows, event.id))
      && (out.Appended? ==> out.event == event.(num := |RowsOf(t.rows, event.run)| + 1))
      && forall run ::
          RowsOf(t'.rows, run) ==
          RowsOf(t.rows, run) + (if out.Appended? && run == event.run then [out.event] else [])
  {
    var (t', out) := Append(t, event);
    if out.Appended? {
      MaxSeqIsLength(t.rows, event.run);
      forall run
        ensures RowsOf(t'.rows, run) == RowsOf(t.rows, run) + (if run == event.run then [out.event] else [])
        ensures Numbered(RowsOf(t'.rows, run))
      {
        RowsOfSnoc(t.rows, out.event, run);
      }
    } else {
      forall run
        ensures RowsOf(t'.rows, run) == RowsOf(t.rows, run) + []
      {
      }
    }
  }

  /** The three outcomes, by the states that are terminal and the ids that are taken. */
  lemma AppendRefusals(t: Table, event: Event)
    ensures var out := Append(t, event).1;
      && (out == RefusedTerminal <==> event.run in t.runs && t.runs[event.run] in {Completed, Failed, Cancelled})
      && (out == RefusedDuplicateId <==>
            && (event.run in t.runs ==> t.runs[event.run] in {Created, Planning, Executing, WaitingApproval})
            && exists i :: 0 <= i < |t.rows| && t.rows[i].id == event.id)
  {
  }

  // ---- list ----

  function Clamp(k: int, n: nat): (r: nat)
    ensures r <= n
  {
    if k < 0 then 0 else if k > n then n else k
  }

  lemma {:induction false} SinceSnoc(log: seq<Event>, e: Event, since: int)
    ensures Since(log + [e], since) == Since(log, since) + (if e.num > since then [e] else [])
  {
    assert (log + [e])[..|log|] == log;
  }

  lemma {:induction false} SinceOfPrefix(log: seq<Event>, since: int, k: nat)
    requires Numbered(log) && k <= |log|
    ensures Since(log[..k], since) == log[Clamp(since, k)..k]
  {
    if k > 0 {
      var n := k - 1;
      var e, from := log[n], Clamp(since, n);
      calc {
        Since(log[..k], since);
        { assert log[..k] == log[..n] + [e]; }
        Since(log[..n] + [e], since);
        { SinceSnoc(log[..n], e, since); }
        Since(log[..n], since) + (if k > since then [e] else []);
        { SinceOfPrefix(log, since, n); }
        log[from..n] + (if k > since then [e] else []);
        log[Clamp(since, k)..k];
      }
    }
  }

  lemma {:induction false} SinceIsDrop(log: seq<Event>, since: int)
    requires Numbered(log)
    ensures Since(log, since) == log[Clamp(since, |log|)..]
  {
    SinceOfPrefix(log, since, |log|);
    assert log[..|log|] == log;
  }

  ghost predicate Ascending(s: seq<Event>) {
    forall i, j :: 0 <= i < j < |s| ==> s[i].num < s[j].num
  }

  lemma {:induction false} SortOfAscending(s: seq<Event>)
    requires Ascending(s)
    ensures SortBySeq(s) == s
  {
    if s == [] {
    } else {
      var n := |s| - 1;
      SortOfAscending(s[..n]);
      assert s[..n] + [s[n]] == s;
    }
  }

  /** `list(since, limit)` is the slice of the run's log that starts just after `since`. */
  lemma {:induction false} ListIsSlice(rows: seq<Event>, run: RunId, since: int, limit: Option<nat>)
    requires Numbered(RowsOf(rows, run))
    ensures var log := RowsOf(rows, run);
      var rest := log[Clamp(since, |log|)..];
      ListEvents(rows, run, since, limit) ==
      if limit.Some? && limit.value < |rest| then rest[..limit.value] else rest
  {
    var log := RowsOf(rows, run);
    SinceIsDrop(log, since);
    SortOfAscending(log[Clamp(since, |log|)..]);
  }

  function NextCursor(cursor: int, page: seq<Event>): int {
    if page == [] then cursor else page[|page| - 1].num
  }

  /** A query for one page: at most `limit` events after `since`. */
  type Fetch = (int, nat) -> seq<Event>

  /** A client that pages through the log: each page starts after the last seq
      of the page before it. */
  function ReadPages(fetch: Fetch, cursor: int, sizes: seq<nat>): seq<Event>
    decreases |sizes|
  {
    if sizes == [] then []
    else
      var page := fetch(cursor, sizes[0]);
      page + ReadPages(fetch, NextCursor(cursor, page), sizes[1..])
  }

  /** Pages by `list(run_id, since_seq, limit)`. */
  function FetchList(rows: seq<Event>, run: RunId): Fetch {
    (since: int, limit: nat) => ListEvents(rows, run, since, Some(limit))
  }

  function Sum(sizes: seq<nat>): nat {
    if sizes == [] then 0 else sizes[0] + Sum(sizes[1..])
  }

  lemma ClampTwice(cursor: nat, a: nat, b: nat, n: nat)
    requires cursor <= n
    ensures Clamp(Clamp(cursor + a, n) + b, n) == Clamp(cursor + (a + b), n)
    ensures cursor <= Clamp(cursor + a, n) <= Clamp(cursor + (a + b), n) <= n
  {
  }

  lemma JoinSegments(s: seq<Event>, a: nat, b: nat, c: nat)
    requires a <= b <= c <= |s|
    ensures s[a..b] + s[b..c] == s[a..c]
  {
  }

  lemma {:induction false} PageIsSegment(rows: seq<Event>, run: RunId, log: seq<Event>, cursor: nat, size: nat)
    requires log == RowsOf(rows, run) && Numbered(log) && cursor <= |log|
    ensures ListEvents(rows, run, cursor, Some(size)) == log[cursor..Clamp(cursor + size, |log|)]
  {
    ListIsSlice(rows, run, cursor, Some(size));
    var rest, next := log[cursor..], Clamp(cursor + size, |log|);
    if size < |rest| {
      assert rest[..size] == log[cursor..next];
    } else {
      assert rest == log[cursor..next];
    }
  }

  ghost predicate FetchesSegments(fetch: Fetch, log: seq<Event>) {
    forall c: nat, n: nat :: c <= |log| ==> fetch(c, n) == log[c..Clamp(c + n, |log|)]
  }

  lemma {:induction false} FirstPage(fetch: Fetch, log: seq<Event>, cursor: nat, sizes: seq<nat>)
    requires Numbered(log) && cursor <= |log| && sizes != [] && FetchesSegments(fetch, log)
    ensures var next := Clamp(cursor + sizes[0], |log|);
      cursor <= next && ReadPages(fetch, cursor, sizes) == log[cursor..next] + ReadPages(fetch, next, sizes[1..])
  {
    var next := Clamp(cursor + sizes[0], |log|);
    var page := fetch(cursor, sizes[0]);
    assert page == log[cursor..next];
    if page != [] {
      assert page[|page| - 1] == log[next - 1];
    }
    assert NextCursor(cursor, page) == next;
  }

  lemma {:induction false} PagesFrom(fetch: Fetch, log: seq<Event>, cursor: nat, sizes: seq<nat>)
    requires Numbered(log) && cursor <= |log| && FetchesSegments(fetch, log)
    ensures ReadPages(fetch, cursor, sizes) == log[cursor..Clamp(cursor + Sum(sizes), |log|)]
    decreases |sizes|
  {
    if sizes == [] {
      assert log[cursor..cursor] == [];
    } else {
      var next, rest := Clamp(cursor + sizes[0], |log|), Sum(sizes[1..]);
      var end := Clamp(next + rest, |log|);
      ClampTwice(cursor, sizes[0], rest, |log|);
      assert Sum(sizes) == sizes[0] + rest;
      assert end == Clamp(cursor + Sum(sizes), |log|);
      calc {
        ReadPages(fetch, cursor, sizes);
        { FirstPage(fetch, log, cursor, sizes); }
        log[cursor..next] + ReadPages(fetch, next, sizes[1..]);
        { PagesFrom(fetch, log, next, sizes[1..]); }
        log[cursor..next] + log[next..end];
        { JoinSegments(log, cursor, next, end); }
        log[cursor..end];
      }
    }
  }

  /** Paging at any page sizes rebuilds the log with no gap and no repeat. */
  lemma {:induction false} PagingRebuildsLog(rows: seq<Event>, run: RunId, cursor: nat, sizes: seq<nat>)
    requires Numbered(RowsOf(rows, run)) && cursor <= |RowsOf(rows, run)|
    ensures var log := RowsOf(rows, run);
      ReadPages(FetchList(rows, run), cursor, sizes) == log[cursor..Clamp(cursor + Sum(sizes), |log|)]
  {
    var log, fetch := RowsOf(rows, run), FetchList(rows, run);
    forall c: nat, n: nat | c <= |log|
      ensures fetch(c, n) == log[c..Clamp(c + n, |log|)]
    {
      PageIsSegment(rows, run, log, c, n);
    }
    PagesFrom(fetch, log, cursor, sizes);
  }

  /** Paging from the start returns the whole log exactly when the pages are
      large enough together, whatever their individual sizes. */
  lemma {:induction false} PagingFromStart(rows: seq<Event>, run: RunId, sizes: seq<nat>)
    requires Numbered(RowsOf(rows, run))
    ensures ReadPages(FetchList(rows, run), 0, sizes) == RowsOf(rows, run) <==> Sum(sizes) >= |RowsOf(rows, run)|
  {
    var log := RowsOf(rows, run);
    var k := Clamp(Sum(sizes), |log|);
    PagingRebuildsLog(rows, run, 0, sizes);
    assert |log[0..k]| == k;
    assert k == |log| ==> log[0..k] == log;
  }
}
