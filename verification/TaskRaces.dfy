/** Task calls that overlap: the id search of `create_task` probe by probe, and the check
    and the save of both verbs, with other calls in between. A save is one step. */
module TaskRaces {
  import opened Prelude
  import opened RunEvents
  import opened Database
  import opened EaTasks

  type CallId = nat

  datatype Flight =
    | Searching(session: string, title: string, objective: string, counter: nat)
    | Found(task: Task)
    | Checked(task: Task, to: TaskState)

  datatype Race = Race(tasks: map<TaskId, Task>, flights: map<CallId, Flight>)

  datatype Step =
    | Begin(c: CallId, session: string, title: string, objective: string)
    | Probe(c: CallId)
    | Check(c: CallId, id: TaskId, to: TaskState)
    | Save(c: CallId)

  function DraftOf(f: Flight): Task
    requires f.Searching?
  {
    Task(Candidate(f.session, f.counter), f.session, f.title, f.objective, Draft)
  }

  /** What a call's save writes. */
  function Written(f: Flight): Option<Task> {
    match f
    case Searching(_, _, _, _) => None
    case Found(task) => Some(task)
    case Checked(task, to) => Some(task.(state := to))
  }

  function Next(s: Race, step: Step): Race {
    match step
    case Begin(c, session, title, objective) =>
      if c in s.flights then s else s.(flights := s.flights[c := Searching(session, title, objective, 0)])
    case Probe(c) =>
      if c !in s.flights || !s.flights[c].Searching? then s
      else
        var f := s.flights[c];
        var next := if DraftOf(f).id in s.tasks then f.(counter := f.counter + 1) else Found(DraftOf(f));
        s.(flights := s.flights[c := next])
    case Check(c, id, to) =>
      if c in s.flights || id !in s.tasks || !Allowed(s.tasks[id].state, to) then s
      else s.(flights := s.flights[c := Checked(s.tasks[id], to)])
    case Save(c) =>
      if c !in s.flights || Written(s.flights[c]).None? then s
      else
        var task := Written(s.flights[c]).value;
        Race(s.tasks[task.id := task], s.flights - {c})
  }

  function Exec(s: Race, steps: seq<Step>): Race {
    if steps == [] then s else Next(Exec(s, steps[..|steps| - 1]), steps[|steps| - 1])
  }

  lemma {:induction false} ExecConcat(s: Race, xs: seq<Step>, ys: seq<Step>)
    ensures Exec(s, xs + ys) == Exec(Exec(s, xs), ys)
  {
    if ys == [] {
      assert xs + ys == xs;
    } else {
      var n := |ys| - 1;
      ExecConcat(s, xs, ys[..n]);
      assert (xs + ys)[..|xs + ys| - 1] == xs + ys[..n];
    }
  }

  /** Call c is about to create a task under this id. */
  predicate HasFound(s: Race, c: CallId, id: TaskId) {
    c in s.flights && s.flights[c].Found? && s.flights[c].task.id == id
  }

  ghost predicate SavesOf(steps: seq<Step>, c: CallId) {
    exists i :: 0 <= i < |steps| && steps[i] == Save(c)
  }

  // ---- the search alone ----

  function Probes(c: CallId, n: nat): seq<Step> {
    seq(n, i => Probe(c))
  }

  /** With nothing in between, the probes count up to the first free candidate. */
  lemma {:induction false} ProbesCount(s: Race, c: CallId, n: nat)
    requires c in s.flights && s.flights[c].Searching? && s.flights[c].counter == 0
    requires forall k :: 0 <= k < n ==> Candidate(s.flights[c].session, k) in s.tasks
    ensures Exec(s, Probes(c, n)) == s.(flights := s.flights[c := s.flights[c].(counter := n)])
  {
    if n == 0 {
      assert s.flights[c := s.flights[c]] == s.flights;
    } else {
      ProbesCount(s, c, n - 1);
      assert Probes(c, n)[..n - 1] == Probes(c, n - 1);
      var f := s.flights[c];
      var t := Exec(s, Probes(c, n - 1));
      assert t.flights[c] == f.(counter := n - 1) && DraftOf(t.flights[c]).id == Candidate(f.session, n - 1);
    }
  }

  /** A call alone takes the least free id, as `create_task` promises. */
  lemma SearchAlone(s: Race, c: CallId)
    requires c in s.flights && s.flights[c].Searching? && s.flights[c].counter == 0
    ensures var f := s.flights[c];
      var n, id := LeastFree(s.tasks.Keys, f.session, 0), NextId(s.tasks.Keys, f.session);
      Exec(s, Probes(c, n + 1)) ==
      s.(flights := s.flights[c := Found(Task(id, f.session, f.title, f.objective, Draft))])
  {
    var f := s.flights[c];
    var n := LeastFree(s.tasks.Keys, f.session, 0);
    LeastFreeIsLeast(s.tasks.Keys, f.session, 0);
    ProbesCount(s, c, n);
    assert Probes(c, n + 1)[..n] == Probes(c, n);
    var t := Exec(s, Probes(c, n));
    assert Exec(s, Probes(c, n + 1)) == Next(t, Probe(c));
    assert t.flights[c] == f.(counter := n);
  }

  /** The check and the save of a transition with nothing in between are `transition_task`. */
  lemma MoveAlone(s: Race, c: CallId, id: TaskId, to: TaskState)
    requires c !in s.flights && forall x :: x in s.tasks ==> s.tasks[x].id == x
    ensures Next(Next(s, Check(c, id, to)), Save(c)).tasks ==
      if id in s.tasks && Allowed(s.tasks[id].state, to) then s.tasks[id := s.tasks[id].(state := to)] else s.tasks
  {
  }

  // ---- overlapping creations ----

  /** A stored task stays stored, whatever happens. */
  lemma {:induction false} TasksStay(s: Race, steps: seq<Step>, id: TaskId)
    requires id in s.tasks
    ensures id in Exec(s, steps).tasks
  {
    if steps == [] {
    } else {
      TasksStay(s, steps[..|steps| - 1], id);
    }
  }

  lemma FoundStep(s: Race, step: Step, c: CallId, id: TaskId)
    requires id in s.tasks && step != Save(c)
    ensures HasFound(Next(s, step), c, id) <==> HasFound(s, c, id)
  {
  }

  /** Once an id is taken, no search finds it any more; one that had found it keeps it. */
  lemma {:induction false} FoundStays(s: Race, steps: seq<Step>, c: CallId, id: TaskId)
    requires id in s.tasks && !SavesOf(steps, c)
    ensures HasFound(Exec(s, steps), c, id) <==> HasFound(s, c, id)
  {
    if steps == [] {
    } else {
      var n := |steps| - 1;
      assert forall i :: 0 <= i < n ==> steps[..n][i] == steps[i];
      FoundStays(s, steps[..n], c, id);
      TasksStay(s, steps[..n], id);
      FoundStep(Exec(s, steps[..n]), steps[n], c, id);
    }
  }

  /** After call a has saved its new task, call b creates one under the same id exactly if
      b's search had ended on that id before a saved. Then the id holds b's task. */
  lemma {:induction false} CreationsCollideExactlyWhenFoundBefore(s: Race, a: CallId, b: CallId, id: TaskId,
      mid: seq<Step>)
    requires a != b && HasFound(s, a, id) && !SavesOf(mid, b)
    ensures var s' := Exec(Next(s, Save(a)), mid);
      && id in s'.tasks
      && (HasFound(s', b, id) <==> HasFound(s, b, id))
      && (HasFound(s', b, id) ==> Next(s', Save(b)).tasks == s'.tasks[id := s'.flights[b].task])
  {
    var s1 := Next(s, Save(a));
    TasksStay(s1, mid, id);
    FoundStays(s1, mid, b, id);
  }

  /** Two calls of one session that start together, on any repository: both find the same
      id, and after both saves the repository has one task more, the second one. */
  lemma TwoCreationsOneTask(s: Race, a: CallId, fa: Flight, b: CallId, fb: Flight)
    requires a != b && a in s.flights && b in s.flights && s.flights[a] == fa && s.flights[b] == fb
    requires fa.Searching? && fb.Searching? && fa.counter == fb.counter == 0 && fa.session == fb.session
    ensures var n, id := LeastFree(s.tasks.Keys, fa.session, 0), NextId(s.tasks.Keys, fa.session);
      var t := Exec(s, Probes(a, n + 1) + Probes(b, n + 1));
      && HasFound(t, a, id) && HasFound(t, b, id)
      && Next(Next(t, Save(a)), Save(b)).tasks == s.tasks[id := Task(id, fb.session, fb.title, fb.objective, Draft)]
  {
    var n, id := LeastFree(s.tasks.Keys, fa.session, 0), NextId(s.tasks.Keys, fa.session);
    var taskA := Task(id, fa.session, fa.title, fa.objective, Draft);
    var taskB := Task(id, fb.session, fb.title, fb.objective, Draft);
    SearchAlone(s, a);
    var s1 := Exec(s, Probes(a, n + 1));
    assert s1 == s.(flights := s.flights[a := Found(taskA)]);
    SearchAlone(s1, b);
    ExecConcat(s, Probes(a, n + 1), Probes(b, n + 1));
    var t := s1.(flights := s1.flights[b := Found(taskB)]);
    BothSaved(t, a, taskA, b, taskB);
  }

  lemma BothSaved(t: Race, a: CallId, taskA: Task, b: CallId, taskB: Task)
    requires a != b && a in t.flights && b in t.flights && taskA.id == taskB.id
    requires t.flights[a] == Found(taskA) && t.flights[b] == Found(taskB)
    ensures Next(Next(t, Save(a)), Save(b)).tasks == t.tasks[taskA.id := taskB]
  {
    assert Next(t, Save(a)).flights[b] == Found(taskB);
  }

  // ---- overlapping transitions ----

  /** Two transitions checked against the same state are both saved. The second takes the
      task from where the first has left it, which the table allows in two cases only. */
  lemma SecondMoveLegalExactlyWhen(s: Race, a: CallId, b: CallId, id: TaskId, x: TaskState, y: TaskState)
    requires a != b && a !in s.flights && b !in s.flights && id in s.tasks && s.tasks[id].id == id
    requires Allowed(s.tasks[id].state, x) && Allowed(s.tasks[id].state, y)
    ensures var s1 := Next(Next(Next(s, Check(a, id, x)), Check(b, id, y)), Save(a));
      var s2 := Next(s1, Save(b));
      && id in s1.tasks && id in s2.tasks
      && s1.tasks[id].state == x && s2.tasks[id].state == y
      && (Allowed(s1.tasks[id].state, s2.tasks[id].state) <==>
            (x.Waiting? && y.TaskFailed?) || (x.Planned? && y.TaskCancelled?))
  {
    var c1 := Next(s, Check(a, id, x));
    var c2 := Next(c1, Check(b, id, y));
    assert c2.flights[a] == Checked(s.tasks[id], x) && c2.flights[b] == Checked(s.tasks[id], y);
  }
}
