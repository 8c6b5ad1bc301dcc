/** Policy presets: merging overrides into a rule list, and the first-match decision it feeds. */
module PolicyLoader {
  import opened Prelude

  /** The three decisions, and any other text: `default_decision` of an override is
      taken over without validation. */
  datatype Decision = AutoAllow | ApprovalRequired | Forbidden | Unvalidated(text: string)

  datatype Rule = Rule(tool: string, action: Option<string>, decision: Decision, reason: Option<string>)

  datatype Policy = Policy(rules: seq<Rule>, defaultDecision: Decision)

  /** A non-empty override. `rules` is None when the value under "rules" is not a
      list; an entry is None when it is not a mapping or fails validation. */
  datatype Override = Override(rules: Option<seq<Option<Rule>>>, defaultDecision: Option<Decision>)

  function Entries(ov: Override): seq<Option<Rule>> {
    if ov.rules.Some? then ov.rules.value else []
  }

  /** The override rule that counts for a tool: the last valid entry. */
  function LastFor(entries: seq<Option<Rule>>, tool: string): Option<Rule> {
    if entries == [] then None
    else
      var last := entries[|entries| - 1];
      if last.Some? && last.value.tool == tool then last
      else LastFor(entries[..|entries| - 1], tool)
  }

  /** The tools of the valid entries, in order of first occurrence. */
  function ToolOrder(entries: seq<Option<Rule>>): seq<string> {
    if entries == [] then []
    else
      var before, last := ToolOrder(entries[..|entries| - 1]), entries[|entries| - 1];
      if last.Some? && last.value.tool !in before then before + [last.value.tool] else before
  }

  function Replacement(entries: seq<Option<Rule>>, r: Rule): Rule {
    var o := LastFor(entries, r.tool);
    if o.Some? then o.value else r
  }

  function Replaced(entries: seq<Option<Rule>>, base: seq<Rule>): seq<Rule> {
    seq(|base|, i requires 0 <= i < |base| => Replacement(entries, base[i]))
  }

  predicate HasTool(rules: seq<Rule>, tool: string) {
    exists i :: 0 <= i < |rules| && rules[i].tool == tool
  }

  /** The overrides of `tools` that no base rule has, in that order. */
  function Additions(entries: seq<Option<Rule>>, base: seq<Rule>, tools: seq<string>): seq<Rule> {
    if tools == [] then []
    else
      var before, tool := Additions(entries, base, tools[..|tools| - 1]), tools[|tools| - 1];
      var o := LastFor(entries, tool);
      if !HasTool(base, tool) && o.Some? then before + [o.value] else before
  }

  /** The pure result: base rules replaced in place, then the new tools. */
  function MergedRules(entries: seq<Option<Rule>>, base: seq<Rule>): seq<Rule> {
    Replaced(entries, base) + Additions(entries, base, ToolOrder(entries))
  }

  function Merge(p: Policy, ov: Override): Policy {
    Policy(if ov.rules.Some? then MergedRules(ov.rules.value, p.rules) else p.rules,
           if ov.defaultDecision.Some? then ov.defaultDecision.value else p.defaultDecision)
  }

  // ---- the loops ----

  lemma {:induction false} LastForSound(entries: seq<Option<Rule>>, tool: string)
    ensures LastFor(entries, tool).Some? ==> LastFor(entries, tool).value.tool == tool
    ensures LastFor(entries, tool).Some? <==> tool in ToolOrder(entries)
  {
    if entries == [] {
    } else {
      LastForSound(entries[..|entries| - 1], tool);
    }
  }

  /** An insertion-ordered dictionary holds the last valid entry of each tool. */
  ghost predicate IsOverrideMap(entries: seq<Option<Rule>>, overrides: map<string, Rule>, order: seq<string>) {
    && order == ToolOrder(entries)
    && forall tool :: (tool in overrides <==> LastFor(entries, tool).Some?)
        && (tool in overrides ==> LastFor(entries, tool) == Some(overrides[tool]))
  }

  /** `override_map[rule.tool] = rule` for each valid entry. */
  method BuildOverrideMap(entries: seq<Option<Rule>>) returns (overrides: map<string, Rule>, order: seq<string>)
    ensures IsOverrideMap(entries, overrides, order)
  {
    overrides, order := map[], [];
    for i := 0 to |entries|
      invariant IsOverrideMap(entries[..i], overrides, order)
    {
      assert entries[..i + 1][..i] == entries[..i];
      if entries[i].None? {
        continue;
      }
      var rule := entries[i].value;
      LastForSound(entries[..i], rule.tool);
      if rule.tool !in overrides {
        order := order + [rule.tool];
      }
      overrides := overrides[rule.tool := rule];
    }
    assert entries[..|entries|] == entries;
  }

  /** `list.index`: the first position of an equal element. */
  method IndexOf(rules: seq<Rule>, r: Rule) returns (j: nat)
    requires r in rules
    ensures j < |rules| && rules[j] == r && forall k :: 0 <= k < j ==> rules[k] != r
  {
    j := 0;
    while rules[j] != r
      invariant j < |rules| && forall k :: 0 <= k < j ==> rules[k] != r
      decreases |rules| - j
    {
      var k :| 0 <= k < |rules| && rules[k] == r;
      j := j + 1;
    }
  }

  /** The list is rewritten through `index(rule)` while it is being iterated. With
      duplicate and equal rules too, cell i ends up with the replacement of base rule i. */
  method ReplaceInPlace(base: seq<Rule>, entries: seq<Option<Rule>>, overrides: map<string, Rule>, order: seq<string>)
      returns (rules: seq<Rule>, existing: set<string>)
    requires IsOverrideMap(entries, overrides, order)
    ensures rules == Replaced(entries, base)
    ensures forall tool :: tool in existing <==> HasTool(base, tool)
  {
    rules, existing := base, {};
    var i := 0;
    while i < |rules|
      invariant |rules| == |base| && 0 <= i <= |base|
      invariant forall k :: 0 <= k < i ==> rules[k] == Replacement(entries, base[k])
      invariant forall k :: i <= k < |base| ==> rules[k] == base[k]
      invariant forall tool :: tool in existing <==> HasTool(base[..i], tool)
      decreases |base| - i
    {
      var rule := rules[i];
      if rule.tool in overrides {
        LastForSound(entries, rule.tool);
        var j := IndexOf(rules, rule);
        // An earlier equal cell already is the replacement, so writing it again is harmless.
        assert j <= i;
        if j < i {
          LastForSound(entries, base[j].tool);
          assert rules[j] == overrides[rule.tool] == rule;
        }
        rules := rules[j := overrides[rule.tool]];
      }
      existing := existing + {rule.tool};
      assert base[..i + 1] == base[..i] + [base[i]];
      forall tool
        ensures HasTool(base[..i + 1], tool) <==> HasTool(base[..i], tool) || tool == rule.tool
      {
        HasToolSnoc(base[..i], base[i], tool);
      }
      i := i + 1;
    }
    assert base[..i] == base;
  }

  lemma HasToolSnoc(rules: seq<Rule>, r: Rule, tool: string)
    ensures HasTool(rules + [r], tool) <==> HasTool(rules, tool) || r.tool == tool
  {
    if HasTool(rules, tool) {
      var i :| 0 <= i < |rules| && rules[i].tool == tool;
      assert (rules + [r])[i].tool == tool;
    }
    assert (rules + [r])[|rules|] == r;
  }

  /** `_merge_overrides` computes the pure merge. */
  method MergeOverrides(doc: Policy, ov: Option<Override>) returns (r: Policy)
    ensures ov.None? ==> r == doc
    ensures ov.Some? ==> r == Merge(doc, ov.value)
  {
    if ov.None? {
      return doc;
    }
    var merged := doc.rules;
    if ov.value.rules.Some? {
      var entries := ov.value.rules.value;
      var overrides, order := BuildOverrideMap(entries);
      var existing;
      merged, existing := ReplaceInPlace(doc.rules, entries, overrides, order);
      for i := 0 to |order|
        invariant merged == Replaced(entries, doc.rules) + Additions(entries, doc.rules, order[..i])
      {
        assert order[..i + 1][..i] == order[..i];
        LastForSound(entries, order[i]);
        if order[i] !in existing {
          merged := merged + [overrides[order[i]]];
        }
      }
      assert order[..|order|] == order;
    }
    r := Policy(merged, if ov.value.defaultDecision.Some? then ov.value.defaultDecision.value else doc.defaultDecision);
  }

  // ---- the merge, written out ----

  /** Entry i is a valid one of this tool. */
  ghost predicate EntryOf(entries: seq<Option<Rule>>, i: int, tool: string) {
    0 <= i < |entries| && entries[i].Some? && entries[i].value.tool == tool
  }

  ghost predicate FirstEntryAt(entries: seq<Option<Rule>>, i: int, tool: string) {
    EntryOf(entries, i, tool) && forall j :: 0 <= j < i ==> !EntryOf(entries, j, tool)
  }

  ghost predicate LastEntryAt(entries: seq<Option<Rule>>, i: int, tool: string) {
    EntryOf(entries, i, tool) && forall j :: i < j < |entries| ==> !EntryOf(entries, j, tool)
  }

  /** The override of a tool is its last valid entry. */
  lemma {:induction false} LastForIsLast(entries: seq<Option<Rule>>, tool: string)
    ensures LastFor(entries, tool).None? <==> forall i :: 0 <= i < |entries| ==> !EntryOf(entries, i, tool)
    ensures forall i :: LastEntryAt(entries, i, tool) ==> LastFor(entries, tool) == entries[i]
  {
    if entries == [] {
    } else {
      var n := |entries| - 1;
      LastForIsLast(entries[..n], tool);
      assert forall i :: 0 <= i < n ==> (EntryOf(entries[..n], i, tool) <==> EntryOf(entries, i, tool));
      if EntryOf(entries, n, tool) {
        assert forall i :: LastEntryAt(entries, i, tool) ==> i == n;
      } else {
        forall i | LastEntryAt(entries, i, tool)
          ensures LastEntryAt(entries[..n], i, tool)
        {
        }
      }
    }
  }

  /** The default is the override's if it has one; without a rule list the rules stay; and
      with one they are the base rules and what is added behind them. */
  lemma MergeWritten(p: Policy, ov: Override)
    ensures ov.defaultDecision.Some? ==> Merge(p, ov).defaultDecision == ov.defaultDecision.value
    ensures ov.defaultDecision.None? ==> Merge(p, ov).defaultDecision == p.defaultDecision
    ensures ov.rules.None? ==> Merge(p, ov).rules == p.rules
    ensures ov.rules.Some? ==>
      var entries, rules := ov.rules.value, Merge(p, ov).rules;
      |rules| >= |p.rules| && rules[|p.rules|..] == Additions(entries, p.rules, ToolOrder(entries))
      && rules == MergedRules(entries, p.rules)
  {
  }

  /** Every base rule stays at its place, unless its tool has an override. */
  lemma MergedBase(entries: seq<Option<Rule>>, base: seq<Rule>, i: nat)
    requires i < |base|
    ensures var merged, tool := MergedRules(entries, base), base[i].tool;
      && |merged| >= |base|
      && ((forall j :: 0 <= j < |entries| ==> !EntryOf(entries, j, tool)) ==> merged[i] == base[i])
      && (forall j :: LastEntryAt(entries, j, tool) ==> merged[i] == entries[j].value)
  {
    LastForIsLast(entries, base[i].tool);
  }

  lemma {:induction false} ToolHasEntry(entries: seq<Option<Rule>>, tool: string)
    ensures tool in ToolOrder(entries) <==> exists i :: 0 <= i < |entries| && EntryOf(entries, i, tool)
  {
    LastForSound(entries, tool);
    LastForIsLast(entries, tool);
  }

  /** The tools come in the order of their first valid entries. */
  lemma {:induction false} ToolsInFirstOrder(entries: seq<Option<Rule>>, a: nat, b: nat, i: nat, j: nat)
    requires a < b < |ToolOrder(entries)|
    requires FirstEntryAt(entries, i, ToolOrder(entries)[a]) && FirstEntryAt(entries, j, ToolOrder(entries)[b])
    ensures i < j
  {
    var n := |entries| - 1;
    var front, before, order := entries[..n], ToolOrder(entries[..n]), ToolOrder(entries);
    assert forall k, tool :: 0 <= k < n ==> (EntryOf(front, k, tool) <==> EntryOf(entries, k, tool));
    assert order[a] == before[a];
    ToolHasEntry(front, order[a]);
    ToolHasEntry(front, order[b]);
    var k :| 0 <= k < |front| && EntryOf(front, k, order[a]);
    assert EntryOf(entries, k, order[a]);
    assert i <= k;
    if b < |before| {
      var m :| 0 <= m < |front| && EntryOf(front, m, order[b]);
      assert EntryOf(entries, m, order[b]);
      assert FirstEntryAt(front, i, before[a]) && FirstEntryAt(front, j, before[b]);
      ToolsInFirstOrder(front, a, b, i, j);
    } else {
      ToolOrderNoDup(entries);
      assert order[b] !in before;
      assert forall m :: 0 <= m < |front| ==> !EntryOf(front, m, order[b]);
      assert j == n;
    }
  }

  /** What is added behind the base rules: rules of tools that no base rule has, each the
      tool's override, in the order of the tools. */
  lemma {:induction false} AddedWritten(entries: seq<Option<Rule>>, base: seq<Rule>, tools: seq<string>)
    ensures var added := Additions(entries, base, tools);
      && |added| <= |tools|
      && (forall i :: 0 <= i < |added| ==>
            !HasTool(base, added[i].tool) && LastFor(entries, added[i].tool) == Some(added[i]))
      && ToolsOf(added) == Kept(entries, base, tools)
  {
    if tools == [] {
    } else {
      var n := |tools| - 1;
      AddedWritten(entries, base, tools[..n]);
      LastForSound(entries, tools[n]);
      LastForIsLast(entries, tools[n]);
      var before, o := Additions(entries, base, tools[..n]), LastFor(entries, tools[n]);
      if o.Some? {
        assert ToolsOf(before + [o.value]) == ToolsOf(before) + [tools[n]];
      }
    }
  }

  function ToolsOf(rules: seq<Rule>): seq<string> {
    seq(|rules|, i requires 0 <= i < |rules| => rules[i].tool)
  }

  /** The tools of the list that have an override and no base rule, in the list's order. */
  ghost function Kept(entries: seq<Option<Rule>>, base: seq<Rule>, tools: seq<string>): seq<string> {
    if tools == [] then []
    else
      var n := |tools| - 1;
      Kept(entries, base, tools[..n]) +
      if (exists i :: 0 <= i < |entries| && EntryOf(entries, i, tools[n]))
         && forall i :: 0 <= i < |base| ==> base[i].tool != tools[n]
      then [tools[n]] else []
  }

  // ---- first-match evaluation ----

  datatype Verdict = Allowed | NeedsApproval(reason: Option<string>) | Refused

  predicate Applies(r: Rule, tool: string, action: string) {
    r.tool == tool && (r.action.None? || r.action.value == action)
  }

  function RuleVerdict(r: Rule): Verdict {
    match r.decision
    case AutoAllow => Allowed
    case Forbidden => Refused
    case _ => NeedsApproval(r.reason)
  }

  function DefaultVerdict(d: Decision): Verdict {
    match d
    case AutoAllow => Allowed
    case Forbidden => Refused
    case _ => NeedsApproval(None)
  }

  function FirstMatch(rules: seq<Rule>, tool: string, action: string): Option<Rule> {
    if rules == [] then None
    else if Applies(rules[0], tool, action) then Some(rules[0])
    else FirstMatch(rules[1..], tool, action)
  }

  /** `ApprovalHook.requirements`. */
  function Requirements(p: Policy, tool: string, action: string): Verdict {
    var r := FirstMatch(p.rules, tool, action);
    if r.Some? then RuleVerdict(r.value) else DefaultVerdict(p.defaultDecision)
  }

  /** Decisions, written out: the first rule of the tool without an action or with this one
      decides, and without such a rule the default does; forbidden is refused, auto-allow is
      allowed, and anything else needs approval. */
  lemma VerdictWritten(p: Policy, tool: string, action: string)
    ensures forall i: nat :: FirstApplies(p.rules, tool, action, i) ==>
      Requirements(p, tool, action) ==
      (if p.rules[i].decision == AutoAllow then Allowed
       else if p.rules[i].decision == Forbidden then Refused
       else NeedsApproval(p.rules[i].reason))
    ensures (forall i :: 0 <= i < |p.rules| ==> !AppliesAt(p.rules, tool, action, i)) ==>
      Requirements(p, tool, action) ==
      (if p.defaultDecision == AutoAllow then Allowed
       else if p.defaultDecision == Forbidden then Refused
       else NeedsApproval(None))
  {
    forall i: nat | FirstApplies(p.rules, tool, action, i)
      ensures FirstMatch(p.rules, tool, action) == Some(p.rules[i])
    {
      FirstMatchAt(p.rules, tool, action, i);
    }
    if forall i :: 0 <= i < |p.rules| ==> !AppliesAt(p.rules, tool, action, i) {
      NoMatch(p.rules, tool, action);
    }
  }

  ghost predicate AppliesAt(rules: seq<Rule>, tool: string, action: string, i: nat) {
    i < |rules| && rules[i].tool == tool && rules[i].action in {None, Some(action)}
  }

  ghost predicate FirstApplies(rules: seq<Rule>, tool: string, action: string, i: nat) {
    AppliesAt(rules, tool, action, i) && forall j :: 0 <= j < i ==> !AppliesAt(rules, tool, action, j)
  }

  lemma {:induction false} FirstMatchAt(rules: seq<Rule>, tool: string, action: string, i: nat)
    requires FirstApplies(rules, tool, action, i)
    ensures FirstMatch(rules, tool, action) == Some(rules[i])
  {
    if i > 0 {
      assert !AppliesAt(rules, tool, action, 0);
      assert forall j: nat :: AppliesAt(rules[1..], tool, action, j) <==> AppliesAt(rules, tool, action, j + 1);
      FirstMatchAt(rules[1..], tool, action, i - 1);
    }
  }

  lemma {:induction false} NoMatch(rules: seq<Rule>, tool: string, action: string)
    requires forall i :: 0 <= i < |rules| ==> !AppliesAt(rules, tool, action, i)
    ensures FirstMatch(rules, tool, action).None?
  {
    if rules != [] {
      assert !AppliesAt(rules, tool, action, 0);
      assert forall j: nat :: j < |rules| - 1 ==>
        (AppliesAt(rules[1..], tool, action, j) <==> AppliesAt(rules, tool, action, j + 1));
      NoMatch(rules[1..], tool, action);
    }
  }

  lemma {:induction false} FirstMatchConcat(a: seq<Rule>, b: seq<Rule>, tool: string, action: string)
    ensures FirstMatch(a + b, tool, action) ==
      if FirstMatch(a, tool, action).Some? then FirstMatch(a, tool, action) else FirstMatch(b, tool, action)
  {
    if a == [] {
      assert a + b == b;
    } else {
      FirstMatchConcat(a[1..], b, tool, action);
      assert (a + b)[1..] == a[1..] + b;
    }
  }

  /** Rules of other tools never decide. */
  lemma {:induction false} OtherToolsNeverMatch(rules: seq<Rule>, tool: string, action: string)
    requires !HasTool(rules, tool)
    ensures FirstMatch(rules, tool, action).None?
  {
    if rules == [] {
    } else {
      assert rules[0].tool != tool;
      assert forall i :: 0 <= i < |rules[1..]| ==> rules[1..][i] == rules[i + 1];
      OtherToolsNeverMatch(rules[1..], tool, action);
    }
  }

  lemma {:induction false} ReplacedKeepsOthers(entries: seq<Option<Rule>>, base: seq<Rule>, tool: string,
      action: string)
    requires LastFor(entries, tool).None?
    ensures FirstMatch(Replaced(entries, base), tool, action) == FirstMatch(base, tool, action)
  {
    if base == [] {
    } else {
      LastForSound(entries, base[0].tool);
      assert Replaced(entries, base)[1..] == Replaced(entries, base[1..]);
      ReplacedKeepsOthers(entries, base[1..], tool, action);
    }
  }

  /** Where a base rule of the tool exists, its override decides for the actions it applies to. */
  lemma {:induction false} ReplacedDecides(entries: seq<Option<Rule>>, base: seq<Rule>, tool: string, action: string)
    requires LastFor(entries, tool).Some?
    ensures var o := LastFor(entries, tool);
      FirstMatch(Replaced(entries, base), tool, action) ==
      if HasTool(base, tool) && Applies(o.value, tool, action) then o else None
  {
    if base == [] {
    } else {
      var rest := base[1..];
      LastForSound(entries, base[0].tool);
      LastForSound(entries, tool);
      assert Replaced(entries, base)[1..] == Replaced(entries, rest);
      ReplacedDecides(entries, rest, tool, action);
      HasToolCons(base, tool);
    }
  }

  lemma HasToolCons(rules: seq<Rule>, tool: string)
    requires rules != []
    ensures HasTool(rules, tool) <==> rules[0].tool == tool || HasTool(rules[1..], tool)
  {
    if i :| 0 <= i < |rules| && rules[i].tool == tool {
      assert i > 0 ==> rules[1..][i - 1].tool == tool;
    }
    if i :| 0 <= i < |rules[1..]| && rules[1..][i].tool == tool {
      assert rules[i + 1].tool == tool;
    }
  }

  lemma {:induction false} AdditionsTools(entries: seq<Option<Rule>>, base: seq<Rule>, tools: seq<string>, tool: string)
    ensures HasTool(Additions(entries, base, tools), tool) ==>
      tool in tools && !HasTool(base, tool) && LastFor(entries, tool).Some?
  {
    if tools == [] {
    } else {
      var n := |tools| - 1;
      AdditionsTools(entries, base, tools[..n], tool);
      LastForSound(entries, tools[n]);
      var o := LastFor(entries, tools[n]);
      if o.Some? {
        HasToolSnoc(Additions(entries, base, tools[..n]), o.value, tool);
      }
    }
  }

  lemma {:induction false} AdditionsDecide(entries: seq<Option<Rule>>, base: seq<Rule>, tools: seq<string>,
      tool: string, action: string)
    requires LastFor(entries, tool).Some? && !HasTool(base, tool) && tool in tools && NoDup(tools)
    ensures var o := LastFor(entries, tool);
      FirstMatch(Additions(entries, base, tools), tool, action) == if Applies(o.value, tool, action) then o else None
  {
    var n := |tools| - 1;
    var before := Additions(entries, base, tools[..n]);
    LastForSound(entries, tools[n]);
    if tools[n] == tool {
      AdditionsTools(entries, base, tools[..n], tool);
      OtherToolsNeverMatch(before, tool, action);
      FirstMatchConcat(before, [LastFor(entries, tool).value], tool, action);
    } else {
      AdditionsDecide(entries, base, tools[..n], tool, action);
      if Additions(entries, base, tools) != before {
        FirstMatchConcat(before, [LastFor(entries, tools[n]).value], tool, action);
      }
    }
  }

  lemma {:induction false} ToolOrderNoDup(entries: seq<Option<Rule>>)
    ensures NoDup(ToolOrder(entries))
  {
    if entries == [] {
    } else {
      ToolOrderNoDup(entries[..|entries| - 1]);
    }
  }

  /** What merging means for every tool call: a tool outside the override keeps its
      decision; an overridden tool is decided by its last override rule where that
      rule applies to the action, and by the default where it does not. */
  lemma {:induction false} MergeMeaning(p: Policy, ov: Override, tool: string, action: string)
    ensures var o := LastFor(Entries(ov), tool);
      var merged := Merge(p, ov);
      Requirements(merged, tool, action) ==
      if o.None? then Requirements(p.(defaultDecision := merged.defaultDecision), tool, action)
      else if Applies(o.value, tool, action) then RuleVerdict(o.value)
      else DefaultVerdict(merged.defaultDecision)
  {
    var entries, base := Entries(ov), p.rules;
    var replaced, added := Replaced(entries, base), Additions(entries, base, ToolOrder(entries));
    FirstMatchConcat(replaced, added, tool, action);
    AdditionsTools(entries, base, ToolOrder(entries), tool);
    LastForSound(entries, tool);
    if LastFor(entries, tool).None? {
      ReplacedKeepsOthers(entries, base, tool, action);
      OtherToolsNeverMatch(added, tool, action);
    } else {
      ReplacedDecides(entries, base, tool, action);
      if HasTool(base, tool) {
        OtherToolsNeverMatch(added, tool, action);
      } else {
        ToolOrderNoDup(entries);
        AdditionsDecide(entries, base, ToolOrder(entries), tool, action);
      }
    }
  }

  // ---- merging twice ----

  lemma {:induction false} AdditionsFixed(entries: seq<Option<Rule>>, base: seq<Rule>, tools: seq<string>)
    ensures Replaced(entries, Additions(entries, base, tools)) == Additions(entries, base, tools)
  {
    if tools == [] {
    } else {
      AdditionsFixed(entries, base, tools[..|tools| - 1]);
      LastForSound(entries, tools[|tools| - 1]);
      ReplacedSnoc(entries, base, tools);
    }
  }

  lemma {:induction false} ReplacedSnoc(entries: seq<Option<Rule>>, base: seq<Rule>, tools: seq<string>)
    requires tools != []
    ensures var before := Additions(entries, base, tools[..|tools| - 1]);
      var o := LastFor(entries, tools[|tools| - 1]);
      o.Some? ==> Replaced(entries, before + [o.value]) == Replaced(entries, before) + [Replacement(entries, o.value)]
  {
  }

  lemma {:induction false} NothingToAdd(entries: seq<Option<Rule>>, base: seq<Rule>, tools: seq<string>)
    requires forall i :: 0 <= i < |tools| ==> HasTool(base, tools[i])
    ensures Additions(entries, base, tools) == []
  {
    if tools == [] {
    } else {
      NothingToAdd(entries, base, tools[..|tools| - 1]);
    }
  }

  lemma {:induction false} AddsEveryTool(entries: seq<Option<Rule>>, base: seq<Rule>, tools: seq<string>, i: nat)
    requires i < |tools| && LastFor(entries, tools[i]).Some? && !HasTool(base, tools[i])
    ensures HasTool(Additions(entries, base, tools), tools[i])
  {
    var n := |tools| - 1;
    var before := Additions(entries, base, tools[..n]);
    LastForSound(entries, tools[n]);
    var o := LastFor(entries, tools[n]);
    if o.Some? {
      HasToolSnoc(before, o.value, tools[i]);
    }
    if i < n {
      AddsEveryTool(entries, base, tools[..n], i);
    }
  }

  /** Merging the same override again changes nothing. */
  lemma MergeIdempotent(p: Policy, ov: Override)
    ensures Merge(Merge(p, ov), ov) == Merge(p, ov)
  {
    var entries, base := Entries(ov), p.rules;
    var order := ToolOrder(entries);
    var replaced, added := Replaced(entries, base), Additions(entries, base, order);
    var once := replaced + added;
    forall i | 0 <= i < |base|
      ensures Replacement(entries, Replacement(entries, base[i])) == Replacement(entries, base[i])
    {
      LastForSound(entries, base[i].tool);
    }
    AdditionsFixed(entries, base, order);
    assert Replaced(entries, once) == Replaced(entries, replaced) + Replaced(entries, added);
    assert Replaced(entries, replaced) == replaced;
    forall i | 0 <= i < |order|
      ensures HasTool(once, order[i])
    {
      MergedHasTool(entries, base, order, i);
    }
    NothingToAdd(entries, once, order);
    assert once + [] == once;
  }

  lemma {:induction false} MergedHasTool(entries: seq<Option<Rule>>, base: seq<Rule>, order: seq<string>, i: nat)
    requires order == ToolOrder(entries) && i < |order|
    ensures HasTool(Replaced(entries, base) + Additions(entries, base, order), order[i])
  {
    var replaced, added := Replaced(entries, base), Additions(entries, base, order);
    LastForSound(entries, order[i]);
    if HasTool(base, order[i]) {
      var k :| 0 <= k < |base| && base[k].tool == order[i];
      var merged: seq<Rule> := replaced + added;
      assert merged[k].tool == order[i];
    } else {
      AddsEveryTool(entries, base, order, i);
      var k :| 0 <= k < |added| && added[k].tool == order[i];
      var merged: seq<Rule> := replaced + added;
      assert merged[|replaced| + k].tool == order[i];
    }
  }
}
