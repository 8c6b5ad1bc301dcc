/** Asset filter expressions and the filter chain. */
module AssetFilters {
  import opened Prelude

  datatype Asset = Asset(id: string, kind: string, tags: seq<string>, requiredProviders: seq<string>)

  /** A selector value of the filter dictionary: a string or a list of strings. */
  datatype Value = Text(text: string) | Items(items: seq<string>)

  datatype Field = Tags | Tag | RequiredProviders | Providers | Provider | OtherField

  datatype Op = Include | Exclude | ByTag | ByRequiredProvider

  datatype Filter = Filter(op: Op, select: map<Field, Value>)

  /** A filter dictionary as loaded; the two malformed kinds raise a FilterError. */
  datatype RawFilter = MissingOp | UnknownOp(op: string) | Wellformed(filter: Filter)

  datatype FilterError = NoOp | BadOp(op: string)

  function FromDict(raw: RawFilter): Result<Filter, FilterError> {
    match raw
    case MissingOp => Err(NoOp)
    case UnknownOp(op) => Err(BadOp(op))
    case Wellformed(f) => Ok(f)
  }

  function AsList(v: Value): seq<string> {
    if v.Text? then [v.text] else v.items
  }

  predicate Truthy(v: Value) {
    if v.Text? then v.text != "" else v.items != []
  }

  /** `select.get(a) or select.get(b)`. */
  function GetOr(select: map<Field, Value>, a: Field, b: Field): Option<Value> {
    if a in select && Truthy(select[a]) then Some(select[a])
    else if b in select then Some(select[b])
    else None
  }

  predicate HasAll(wanted: seq<string>, have: seq<string>) {
    forall x :: x in wanted ==> x in have
  }

  predicate HasAny(wanted: seq<string>, have: seq<string>) {
    exists x :: x in wanted && x in have
  }

  predicate MatchInclude(select: map<Field, Value>, a: Asset) {
    && (Tags in select ==> HasAll(AsList(select[Tags]), a.tags))
    && (RequiredProviders in select ==> HasAll(AsList(select[RequiredProviders]), a.requiredProviders))
  }

  predicate Matches(f: Filter, a: Asset) {
    match f.op
    case Include => f.select == map[] || MatchInclude(f.select, a)
    case Exclude => f.select == map[] || MatchInclude(f.select, a)
    case ByTag =>
      var v := GetOr(f.select, Tags, Tag);
      v.Some? && HasAll(AsList(v.value), a.tags)
    case ByRequiredProvider =>
      var v := GetOr(f.select, Providers, Provider);
      v.Some? && HasAny(AsList(v.value), a.requiredProviders)
  }

  /** Whether a filter lets an asset through. */
  predicate Keeps(f: Filter, a: Asset) {
    if f.op.Exclude? then !Matches(f, a) else Matches(f, a)
  }

  /** An operand is a list, or one text that stands for a list of one. */
  ghost predicate InOperand(v: Value, x: string) {
    (v.Text? && v.text == x) || (v.Items? && x in v.items)
  }

  /** The operand that counts: the first one unless it is missing or empty. */
  ghost predicate Operand(select: map<Field, Value>, first: Field, second: Field, v: Value) {
    var usable := first in select && select[first] != Text("") && select[first] != Items([]);
    (usable && v == select[first]) || (!usable && second in select && v == select[second])
  }

  /** What each operator lets through, written out. */
  lemma KeepsWritten(f: Filter, a: Asset)
    ensures var listed :=
        && (Tags in f.select ==> forall x :: InOperand(f.select[Tags], x) ==> x in a.tags)
        && (RequiredProviders in f.select ==>
              forall x :: InOperand(f.select[RequiredProviders], x) ==> x in a.requiredProviders);
      && (f.op.Include? ==> (Keeps(f, a) <==> listed))
      && (f.op.Exclude? ==> (Keeps(f, a) <==> !listed))
    ensures f.op.ByTag? ==>
      (Keeps(f, a) <==> exists v :: Operand(f.select, Tags, Tag, v) && forall x :: InOperand(v, x) ==> x in a.tags)
    ensures f.op.ByRequiredProvider? ==>
      (Keeps(f, a) <==>
        exists v, x :: Operand(f.select, Providers, Provider, v) && InOperand(v, x) && x in a.requiredProviders)
  {
    if f.op.ByTag? {
      var v := GetOr(f.select, Tags, Tag);
      assert v.Some? ==> Operand(f.select, Tags, Tag, v.value);
      assert v.Some? ==> forall x :: InOperand(v.value, x) <==> x in AsList(v.value);
    } else if f.op.ByRequiredProvider? {
      var v := GetOr(f.select, Providers, Provider);
      assert v.Some? ==> Operand(f.select, Providers, Provider, v.value);
      assert v.Some? ==> forall x :: InOperand(v.value, x) <==> x in AsList(v.value);
    }
  }

  function Evaluate(f: Filter, assets: seq<Asset>): seq<Asset> {
    if assets == [] then []
    else
      var n := |assets| - 1;
      Evaluate(f, assets[..n]) + if Keeps(f, assets[n]) then [assets[n]] else []
  }

  predicate Passes(raws: seq<RawFilter>, a: Asset) {
    forall raw :: raw in raws && raw.Wellformed? ==> Keeps(raw.filter, a)
  }

  /** One pass over the registry by the conjunction of all the filters, in registry order. */
  function OnePass(raws: seq<RawFilter>, assets: seq<Asset>): seq<Asset> {
    if assets == [] then []
    else
      var n := |assets| - 1;
      OnePass(raws, assets[..n]) + if Passes(raws, assets[n]) then [assets[n]] else []
  }

  lemma {:induction false} EvaluateConcat(f: Filter, a: seq<Asset>, b: seq<Asset>)
    ensures Evaluate(f, a + b) == Evaluate(f, a) + Evaluate(f, b)
  {
    if b == [] {
      assert a + b == a;
    } else {
      EvaluateConcat(f, a, b[..|b| - 1]);
      assert (a + b)[..|a + b| - 1] == a + b[..|b| - 1];
    }
  }

  lemma {:induction false} OnePassSnoc(raws: seq<RawFilter>, f: Filter, assets: seq<Asset>)
    ensures OnePass(raws + [Wellformed(f)], assets) == Evaluate(f, OnePass(raws, assets))
  {
    if assets == [] {
    } else {
      var n := |assets| - 1;
      var a := assets[n];
      OnePassSnoc(raws, f, assets[..n]);
      PassesSnoc(raws, f, a);
      EvaluateConcat(f, OnePass(raws, assets[..n]), if Passes(raws, a) then [a] else []);
    }
  }

  lemma PassesSnoc(raws: seq<RawFilter>, f: Filter, a: Asset)
    ensures Passes(raws + [Wellformed(f)], a) <==> Passes(raws, a) && Keeps(f, a)
  {
    assert forall raw :: raw in raws + [Wellformed(f)] <==> raw in raws || raw == Wellformed(f);
  }

  lemma {:induction false} OnePassNone(assets: seq<Asset>)
    ensures OnePass([], assets) == assets
  {
    if assets == [] {
    } else {
      OnePassNone(assets[..|assets| - 1]);
      assert assets == assets[..|assets| - 1] + [assets[|assets| - 1]];
    }
  }

  predicate AllWellformed(raws: seq<RawFilter>) {
    forall raw :: raw in raws ==> raw.Wellformed?
  }

  ghost function ErrorOf(raw: RawFilter): FilterError
    requires !raw.Wellformed?
  {
    if raw.MissingOp? then NoOp else BadOp(raw.op)
  }

  ghost predicate FirstMalformed(raws: seq<RawFilter>, i: nat) {
    i < |raws| && !raws[i].Wellformed? && forall j :: 0 <= j < i ==> raws[j].Wellformed?
  }

  lemma StopsAtFirst(raws: seq<RawFilter>, i: nat)
    requires i < |raws| && AllWellformed(raws[..i]) && !raws[i].Wellformed?
    ensures FirstMalformed(raws, i)
  {
    forall j | 0 <= j < i
      ensures raws[j].Wellformed?
    {
      assert raws[j] in raws[..i];
    }
  }

  /** The chain, filter after filter, equals one pass by the conjunction; it fails
      exactly when some filter is malformed. */
  method ApplyFilters(registry: seq<Asset>, raws: seq<RawFilter>) returns (r: Result<seq<Asset>, FilterError>)
    ensures r.Ok? <==> AllWellformed(raws)
    ensures r.Ok? ==> r.value == OnePass(raws, registry)
    ensures r.Err? ==> exists i: nat :: FirstMalformed(raws, i) && r.error == ErrorOf(raws[i])
  {
    var assets := registry;
    OnePassNone(registry);
    assert raws[..0] == [];
    for i := 0 to |raws|
      invariant AllWellformed(raws[..i])
      invariant assets == OnePass(raws[..i], registry)
    {
      assert raws[..i + 1] == raws[..i] + [raws[i]];
      var expr := FromDict(raws[i]);
      if expr.Err? {
        StopsAtFirst(raws, i);
        return Err(expr.error);
      }
      OnePassSnoc(raws[..i], expr.value, registry);
      assets := Evaluate(expr.value, assets);
    }
    assert raws[..|raws|] == raws;
    r := Ok(assets);
  }

  /** The order of the filters does not matter: neither for the result nor for failing. */
  lemma {:induction false} FilterOrderIrrelevant(raws: seq<RawFilter>, permuted: seq<RawFilter>, assets: seq<Asset>)
    requires multiset(raws) == multiset(permuted)
    ensures AllWellformed(raws) <==> AllWellformed(permuted)
    ensures OnePass(raws, assets) == OnePass(permuted, assets)
  {
    SameElements(raws, permuted);
    SameElements(permuted, raws);
    if assets == [] {
    } else {
      FilterOrderIrrelevant(raws, permuted, assets[..|assets| - 1]);
    }
  }

  lemma SameElements(a: seq<RawFilter>, b: seq<RawFilter>)
    requires multiset(a) == multiset(b)
    ensures forall x :: x in a ==> x in b
  {
    forall x | x in a
      ensures x in b
    {
      assert x in multiset(a);
    }
  }

  /** `include` and `exclude` with one selector split any list into two: every asset,
      with its multiplicity, is in exactly one of the parts. */
  lemma {:induction false} IncludeExcludePartition(select: map<Field, Value>, assets: seq<Asset>)
    ensures var kept, dropped := Evaluate(Filter(Include, select), assets), Evaluate(Filter(Exclude, select), assets);
      && multiset(kept) + multiset(dropped) == multiset(assets)
      && forall a :: !(a in kept && a in dropped)
  {
    SplitCounts(Filter(Include, select), Filter(Exclude, select), assets);
    EvaluateSound(Filter(Include, select), assets);
    EvaluateSound(Filter(Exclude, select), assets);
  }

  ghost predicate Complements(f: Filter, g: Filter) {
    forall a :: Keeps(f, a) <==> !Keeps(g, a)
  }

  lemma OneMore<T>(kept: seq<T>, dropped: seq<T>, all: seq<T>, x: T, keep: bool)
    requires multiset(kept) + multiset(dropped) == multiset(all)
    ensures multiset(if keep then kept + [x] else kept) + multiset(if keep then dropped else dropped + [x]) ==
      multiset(all + [x])
  {
  }

  lemma {:induction false} EvaluateSnoc(f: Filter, assets: seq<Asset>, a: Asset)
    ensures Evaluate(f, assets + [a]) == if Keeps(f, a) then Evaluate(f, assets) + [a] else Evaluate(f, assets)
  {
    assert (assets + [a])[..|assets|] == assets;
  }

  lemma {:induction false} SplitCounts(f: Filter, g: Filter, assets: seq<Asset>)
    requires Complements(f, g)
    ensures multiset(Evaluate(f, assets)) + multiset(Evaluate(g, assets)) == multiset(assets)
  {
    if assets == [] {
    } else {
      var front, a := assets[..|assets| - 1], assets[|assets| - 1];
      var kept, dropped, keep := Evaluate(f, front), Evaluate(g, front), Keeps(f, a);
      assert front + [a] == assets;
      calc {
        multiset(Evaluate(f, assets)) + multiset(Evaluate(g, assets));
        { EvaluateSnoc(f, front, a); EvaluateSnoc(g, front, a); }
        multiset(if keep then kept + [a] else kept) + multiset(if keep then dropped else dropped + [a]);
        { SplitCounts(f, g, front); OneMore(kept, dropped, front, a, keep); }
        multiset(front + [a]);
        multiset(assets);
      }
    }
  }

  lemma {:induction false} EvaluateSound(f: Filter, assets: seq<Asset>)
    ensures forall a :: a in Evaluate(f, assets) <==> a in assets && Keeps(f, a)
  {
    if assets == [] {
    } else {
      EvaluateSound(f, assets[..|assets| - 1]);
      assert assets == assets[..|assets| - 1] + [assets[|assets| - 1]];
    }
  }
}
