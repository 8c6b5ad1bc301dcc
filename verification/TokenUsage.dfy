/** The per-run token usage summary: one pass over the rows, with a rollup for each model. */
module TokenUsage {
  import opened Prelude

  datatype Usage = Usage(run: string, model: string, prompt: nat, completion: nat, total: nat)

  datatype Rollup = Rollup(prompt: nat, completion: nat, total: nat, calls: nat)

  datatype Summary = Summary(grand: Rollup, byModel: map<string, Rollup>)

  const ZERO := Rollup(0, 0, 0, 0)

  function Add(a: Rollup, b: Rollup): Rollup {
    Rollup(a.prompt + b.prompt, a.completion + b.completion, a.total + b.total, a.calls + b.calls)
  }

  lemma AddSwap(a: Rollup, b: Rollup, c: Rollup)
    ensures Add(Add(a, b), c) == Add(Add(a, c), b) == Add(a, Add(b, c))
  {
  }

  function OfRow(u: Usage): Rollup {
    Rollup(u.prompt, u.completion, u.total, 1)
  }

  /** Column sums and the row count. */
  function Total(rows: seq<Usage>): Rollup {
    if rows == [] then ZERO else Add(Total(rows[..|rows| - 1]), OfRow(rows[|rows| - 1]))
  }

  function OfRun(rows: seq<Usage>, run: string): seq<Usage> {
    if rows == [] then []
    else
      var before, last := OfRun(rows[..|rows| - 1], run), rows[|rows| - 1];
      if last.run == run then before + [last] else before
  }

  function OfModel(rows: seq<Usage>, model: string): seq<Usage> {
    if rows == [] then []
    else
      var before, last := OfModel(rows[..|rows| - 1], model), rows[|rows| - 1];
      if last.model == model then before + [last] else before
  }

  /** The summary as one filtered sum for each model. */
  ghost predicate Summarizes(s: Summary, rows: seq<Usage>) {
    && s.grand == Total(rows)
    && (forall m :: m in s.byModel <==> OfModel(rows, m) != [])
    && (forall m :: m in s.byModel ==> s.byModel[m] == Total(OfModel(rows, m)))
  }

  lemma {:induction false} TotalSnoc(rows: seq<Usage>, u: Usage)
    ensures Total(rows + [u]) == Add(Total(rows), OfRow(u))
  {
    assert (rows + [u])[..|rows|] == rows;
  }

  lemma {:induction false} OfModelSnoc(rows: seq<Usage>, u: Usage, m: string)
    ensures OfModel(rows + [u], m) == if u.model == m then OfModel(rows, m) + [u] else OfModel(rows, m)
    ensures Total(OfModel(rows + [u], m)) ==
      if u.model == m then Add(Total(OfModel(rows, m)), OfRow(u)) else Total(OfModel(rows, m))
  {
    assert (rows + [u])[..|rows|] == rows;
    TotalSnoc(OfModel(rows, m), u);
  }

  // ---- the sums, written out ----

  function Column(rows: seq<Usage>, value: Usage -> nat): nat {
    if rows == [] then 0 else Column(rows[..|rows| - 1], value) + value(rows[|rows| - 1])
  }

  /** Each total is the sum of its own column, and the calls are the rows. */
  lemma {:induction false} TotalWritten(rows: seq<Usage>)
    ensures Total(rows).prompt == Column(rows, (u: Usage) => u.prompt)
    ensures Total(rows).completion == Column(rows, (u: Usage) => u.completion)
    ensures Total(rows).total == Column(rows, (u: Usage) => u.total)
    ensures Total(rows).calls == |rows|
  {
    if rows == [] {
    } else {
      TotalWritten(rows[..|rows| - 1]);
    }
  }

  /** The rows of a run are exactly those that carry it, and likewise for a model. */
  lemma {:induction false} FiltersWritten(rows: seq<Usage>, key: string, u: Usage)
    ensures multiset(OfRun(rows, key))[u] == if u.run == key then multiset(rows)[u] else 0
    ensures multiset(OfModel(rows, key))[u] == if u.model == key then multiset(rows)[u] else 0
  {
    if rows == [] {
    } else {
      var n := |rows| - 1;
      FiltersWritten(rows[..n], key, u);
      assert rows == rows[..n] + [rows[n]];
    }
  }

  /** One more row: the grand totals and the rollup of its model grow. */
  lemma SummaryGrows(s: Summary, rows: seq<Usage>, u: Usage)
    requires Summarizes(s, rows)
    ensures var sofar := if u.model in s.byModel then s.byModel[u.model] else ZERO;
      Summarizes(Summary(Add(s.grand, OfRow(u)), s.byModel[u.model := Add(sofar, OfRow(u))]), rows + [u])
  {
    TotalSnoc(rows, u);
    forall m
      ensures OfModel(rows + [u], m) == if u.model == m then OfModel(rows, m) + [u] else OfModel(rows, m)
      ensures Total(OfModel(rows + [u], m)) ==
        if u.model == m then Add(Total(OfModel(rows, m)), OfRow(u)) else Total(OfModel(rows, m))
    {
      OfModelSnoc(rows, u, m);
    }
  }

  method Summarize(table: seq<Usage>, run: string) returns (s: Summary)
    ensures Summarizes(s, OfRun(table, run))
  {
    var rows := OfRun(table, run);
    var grand := ZERO;
    var byModel: map<string, Rollup> := map[];
    for i := 0 to |rows|
      invariant Summarizes(Summary(grand, byModel), rows[..i])
    {
      var row := rows[i];
      SummaryGrows(Summary(grand, byModel), rows[..i], row);
      assert rows[..i + 1] == rows[..i] + [row];
      grand := Add(grand, OfRow(row));
      if row.model !in byModel {
        byModel := byModel[row.model := ZERO];
      }
      byModel := byModel[row.model := Add(byModel[row.model], OfRow(row))];
    }
    assert rows[..|rows|] == rows;
    s := Summary(grand, byModel);
  }

  function SumRollups(order: seq<string>, byModel: map<string, Rollup>): Rollup
    requires forall i :: 0 <= i < |order| ==> order[i] in byModel
  {
    if order == [] then ZERO
    else Add(SumRollups(order[..|order| - 1], byModel), byModel[order[|order| - 1]])
  }

  function SumModels(order: seq<string>, rows: seq<Usage>): Rollup {
    if order == [] then ZERO
    else Add(SumModels(order[..|order| - 1], rows), Total(OfModel(rows, order[|order| - 1])))
  }

  lemma LastIsNew(order: seq<string>)
    requires NoDup(order) && order != []
    ensures var front, m := order[..|order| - 1], order[|order| - 1];
      NoDup(front) && m !in front && forall x :: x in order <==> x == m || x in front
  {
    assert order == order[..|order| - 1] + [order[|order| - 1]];
  }

  /** `more` differs from `rows` in one row, which one rollup has taken in. */
  ghost predicate RollupsGrow(rows: seq<Usage>, more: seq<Usage>, u: Usage) {
    forall m ::
      Total(OfModel(more, m)) ==
      if u.model == m then Add(Total(OfModel(rows, m)), OfRow(u)) else Total(OfModel(rows, m))
  }

  /** A further row counts once, under its own model. */
  lemma {:induction false} SumModelsGrows(order: seq<string>, rows: seq<Usage>, more: seq<Usage>, u: Usage)
    requires NoDup(order) && RollupsGrow(rows, more, u)
    ensures SumModels(order, more) ==
      if u.model in order then Add(SumModels(order, rows), OfRow(u)) else SumModels(order, rows)
  {
    if order == [] {
    } else {
      var front, m := order[..|order| - 1], order[|order| - 1];
      LastIsNew(order);
      SumModelsGrows(front, rows, more, u);
      AddSwap(SumModels(front, rows), Total(OfModel(rows, m)), OfRow(u));
    }
  }

  lemma {:induction false} SumModelsSnoc(order: seq<string>, rows: seq<Usage>, u: Usage)
    requires NoDup(order)
    ensures SumModels(order, rows + [u]) ==
      if u.model in order then Add(SumModels(order, rows), OfRow(u)) else SumModels(order, rows)
  {
    forall m
      ensures Total(OfModel(rows + [u], m)) ==
        if u.model == m then Add(Total(OfModel(rows, m)), OfRow(u)) else Total(OfModel(rows, m))
    {
      OfModelSnoc(rows, u, m);
    }
    SumModelsGrows(order, rows, rows + [u], u);
  }

  lemma {:induction false} SumModelsIsTotal(order: seq<string>, rows: seq<Usage>)
    requires NoDup(order) && forall i :: 0 <= i < |rows| ==> rows[i].model in order
    ensures SumModels(order, rows) == Total(rows)
  {
    if rows == [] {
      SumModelsEmpty(order, rows);
    } else {
      var n := |rows| - 1;
      assert forall i :: 0 <= i < n ==> rows[..n][i] == rows[i];
      SumModelsIsTotal(order, rows[..n]);
      SumModelsSnoc(order, rows[..n], rows[n]);
      assert rows[..n] + [rows[n]] == rows;
    }
  }

  lemma {:induction false} SumModelsEmpty(order: seq<string>, rows: seq<Usage>)
    requires |rows| == 0
    ensures SumModels(order, rows) == ZERO
  {
    if order == [] {
    } else {
      SumModelsEmpty(order[..|order| - 1], rows);
      assert OfModel(rows, order[|order| - 1]) == [];
    }
  }

  lemma {:induction false} ModelListed(rows: seq<Usage>, i: nat)
    requires i < |rows|
    ensures OfModel(rows, rows[i].model) != []
  {
    var n := |rows| - 1;
    if i < n {
      ModelListed(rows[..n], i);
    }
  }

  /** However the models are enumerated, the rollups add up to the grand totals: no
      row is counted twice and none is lost. */
  lemma {:induction false} RollupsAddUp(s: Summary, rows: seq<Usage>, order: seq<string>)
    requires Summarizes(s, rows) && NoDup(order)
    requires forall m :: m in order <==> m in s.byModel
    ensures SumRollups(order, s.byModel) == s.grand
    ensures s.grand.calls == |rows|
  {
    forall i | 0 <= i < |rows|
      ensures rows[i].model in order
    {
      ModelListed(rows, i);
    }
    SumModelsIsTotal(order, rows);
    SumRollupsIsSumModels(s, rows, order, |order|);
    assert order[..|order|] == order;
    CallsAreRows(rows);
  }

  lemma {:induction false} SumRollupsIsSumModels(s: Summary, rows: seq<Usage>, order: seq<string>, n: nat)
    requires Summarizes(s, rows) && n <= |order|
    requires forall i :: 0 <= i < |order| ==> order[i] in s.byModel
    ensures SumRollups(order[..n], s.byModel) == SumModels(order[..n], rows)
  {
    if n > 0 {
      SumRollupsIsSumModels(s, rows, order, n - 1);
      assert order[..n][..n - 1] == order[..n - 1];
    }
  }

  lemma {:induction false} CallsAreRows(rows: seq<Usage>)
    ensures Total(rows).calls == |rows|
  {
    if rows == [] {
    } else {
      CallsAreRows(rows[..|rows| - 1]);
    }
  }

  /** With total = prompt + completion in every row, it holds of the grand totals and of every rollup. */
  lemma TotalsConsistent(s: Summary, rows: seq<Usage>, m: string)
    requires Summarizes(s, rows)
    requires forall i :: 0 <= i < |rows| ==> rows[i].total == rows[i].prompt + rows[i].completion
    ensures s.grand.total == s.grand.prompt + s.grand.completion
    ensures m in s.byModel ==> s.byModel[m].total == s.byModel[m].prompt + s.byModel[m].completion
  {
    TotalConsistent(rows);
    OfModelKeeps(rows, m);
    TotalConsistent(OfModel(rows, m));
  }

  lemma {:induction false} TotalConsistent(rows: seq<Usage>)
    requires forall i :: 0 <= i < |rows| ==> rows[i].total == rows[i].prompt + rows[i].completion
    ensures Total(rows).total == Total(rows).prompt + Total(rows).completion
  {
    if rows == [] {
    } else {
      TotalConsistent(rows[..|rows| - 1]);
    }
  }

  lemma {:induction false} OfModelKeeps(rows: seq<Usage>, m: string)
    ensures forall i :: 0 <= i < |OfModel(rows, m)| ==> OfModel(rows, m)[i] in rows
  {
    if rows == [] {
    } else {
      OfModelKeeps(rows[..|rows| - 1], m);
    }
  }
}
