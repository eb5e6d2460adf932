/** The autotune table: first-match lookup, and the rules a benchmark run turns into. */
module Autotune {

  datatype Option<T> = None | Some(value: T)

  /** A knob of the configuration file, by what `int(...)` makes of it: a number, or an
      exception for a null, a list or a string that is not a number. */
  datatype Knob = Number(n: int) | Malformed

  /** A data path with its overrides. */
  datatype Policy = Policy(path: string, knobs: map<string, Knob>)

  /** The knob of this name, or the default; not looked at as a number yet. */
  function KnobOf(knobs: map<string, Knob>, name: string, default: int): Knob {
    if name in knobs then knobs[name] else Number(default)
  }

  /** One rule; "*" or `None` stands for any. A rule may lack a path, and then never decides. */
  datatype Rule = Rule(
    collective: string, groupSize: Option<int>, minBytes: int, maxBytes: Option<int>,
    path: Option<string>, knobs: map<string, Knob>)

  const KNOWN_PATHS: seq<string> := ["vec_pull", "fused", "tma", "copy_engine", "pipelined"]

  predicate Loadable(rules: seq<Rule>) {
    forall i :: 0 <= i < |rules| && rules[i].path.Some? ==> Known(rules[i].path.value)
  }

  predicate Known(path: string) {
    path == "vec_pull" || path == "fused" || path == "tma" || path == "copy_engine" || path == "pipelined"
  }

  /** Construction accepts exactly the tables that name known paths only. */
  method Load(rules: seq<Rule>) returns (ok: bool)
    ensures ok <==> Loadable(rules)
  {
    for i := 0 to |rules|
      invariant forall j :: 0 <= j < i && rules[j].path.Some? ==> Known(rules[j].path.value)
    {
      if rules[i].path.Some? && rules[i].path.value !in KNOWN_PATHS {
        return false;
      }
    }
    return true;
  }

  function PolicyAt(r: Rule): Policy
    requires r.path.Some?
  {
    Policy(r.path.value, r.knobs)
  }

  predicate Matches(r: Rule, collective: string, groupSize: int, bytes: int)
    ensures Matches(r, collective, groupSize, bytes) ==> r.path.Some?
  {
    && (r.collective == "*" || r.collective == collective)
    && (r.groupSize.None? || r.groupSize.value == groupSize)
    && r.minBytes <= bytes && (r.maxBytes.Some? ==> bytes <= r.maxBytes.value)
    && r.path.Some? && r.path.value != ""
  }

  /** The first rule that matches decides. */
  method PolicyFor(rules: seq<Rule>, collective: string, groupSize: int, bytes: int) returns (p: Option<Policy>)
    ensures p.None? <==> forall i :: 0 <= i < |rules| ==> !Matches(rules[i], collective, groupSize, bytes)
    ensures p.Some? ==> exists i ::
      && 0 <= i < |rules| && Matches(rules[i], collective, groupSize, bytes)
      && (forall j :: 0 <= j < i ==> !Matches(rules[j], collective, groupSize, bytes))
      && p.value == PolicyAt(rules[i])
  {
    for i := 0 to |rules|
      invariant forall j :: 0 <= j < i ==> !Matches(rules[j], collective, groupSize, bytes)
    {
      var r := rules[i];
      if r.collective != "*" && r.collective != collective {
        continue;
      }
      if r.groupSize.Some? && r.groupSize.value != groupSize {
        continue;
      }
      if bytes < r.minBytes || (r.maxBytes.Some? && bytes > r.maxBytes.value) {
        continue;
      }
      if r.path.None? || r.path.value == "" {
        continue;
      }
      return Some(Policy(r.path.value, r.knobs));
    }
    return None;
  }

  /** A wildcard stands for every collective and every group size: the rule decides what
      the same rule with the queried name, or the queried size, would decide. */
  lemma WildcardStandsForAll(r: Rule, collective: string, groupSize: int, bytes: int)
    ensures r.collective == "*" ==>
      (Matches(r, collective, groupSize, bytes) <==>
        Matches(r.(collective := collective), collective, groupSize, bytes))
    ensures r.groupSize == None ==>
      (Matches(r, collective, groupSize, bytes) <==>
        Matches(r.(groupSize := Some(groupSize)), collective, groupSize, bytes))
  {
  }

  /** A rule that names a collective or a group size decides no other, and one without a
      path, or with an empty one, decides nothing. */
  lemma NamedRulesOnlyTheirOwn(r: Rule, collective: string, groupSize: int, bytes: int)
    requires Matches(r, collective, groupSize, bytes)
    ensures r.collective == "*" || r.collective == collective
    ensures r.groupSize == None || r.groupSize == Some(groupSize)
    ensures r.path.Some? && r.path.value != ""
  {
  }

  /** The rule that closes a table for whatever no rule before it decides. */
  predicate CatchAll(r: Rule) {
    && r.collective == "*" && r.groupSize == None && r.minBytes == 0 && r.maxBytes == None
    && r.path.Some? && r.path.value != ""
  }

  /** A table with a catch-all answers every query; if the catch-all comes first, it always
      decides. */
  method PolicyWithCatchAll(rules: seq<Rule>, ghost i: nat, collective: string, groupSize: int, bytes: nat)
    returns (p: Option<Policy>)
    requires i < |rules| && CatchAll(rules[i])
    ensures p.Some?
    ensures i == 0 ==> p == Some(PolicyAt(rules[0]))
    ensures exists k :: 0 <= k <= i && rules[k].path.Some? && p.value == PolicyAt(rules[k])
  {
    p := PolicyFor(rules, collective, groupSize, bytes);
    assert Matches(rules[i], collective, groupSize, bytes);
  }

  function ChannelsAsked(r: Rule): Knob {
    if r.path == Some("fused") then KnobOf(r.knobs, "fused_num_channels", 0) else Number(0)
  }

  /** The most channels any fused rule asks for, 0 if there is none; it raises exactly if
      a fused rule's count is no number. */
  method MaxFusedNumChannels(rules: seq<Rule>) returns (mx: Option<int>)
    ensures mx.None? <==> exists i :: 0 <= i < |rules| && ChannelsAsked(rules[i]).Malformed?
    ensures mx.Some? ==> mx.value >= 0 && forall i :: 0 <= i < |rules| ==> ChannelsAsked(rules[i]).n <= mx.value
    ensures mx.Some? && mx.value > 0 ==> exists i :: 0 <= i < |rules| && ChannelsAsked(rules[i]) == Number(mx.value)
  {
    var most := 0;
    for i := 0 to |rules|
      invariant most >= 0
      invariant forall j :: 0 <= j < i ==> ChannelsAsked(rules[j]).Number? && ChannelsAsked(rules[j]).n <= most
      invariant most == 0 || exists j :: 0 <= j < i && ChannelsAsked(rules[j]) == Number(most)
    {
      if rules[i].path == Some("fused") {
        var asked := KnobOf(rules[i].knobs, "fused_num_channels", 0);
        if asked.Malformed? {
          assert ChannelsAsked(rules[i]).Malformed?;
          return None;
        }
        if asked.n > most {
          assert ChannelsAsked(rules[i]) == Number(asked.n);
          most := asked.n;
        }
      }
    }
    return Some(most);
  }

  // ------------------------------------------------------- measured winners

  /** A measured size and the name of the candidate that won it. */
  type Sample = (nat, string)

  ghost predicate Increasing(s: seq<Sample>) {
    forall i, j :: 0 <= i < j < |s| ==> s[i].0 < s[j].0
  }

  /** The last entry at or below `bytes`; the first one if all are above. */
  function At(s: seq<Sample>, bytes: nat): (i: nat)
    requires s != []
    ensures i < |s|
  {
    var last := |s| - 1;
    if last == 0 || s[last].0 <= bytes then last else At(s[..last], bytes)
  }

  lemma {:induction false} AtMeans(s: seq<Sample>, bytes: nat)
    requires s != [] && Increasing(s)
    ensures At(s, bytes) > 0 ==> s[At(s, bytes)].0 <= bytes
    ensures forall j :: At(s, bytes) < j < |s| ==> bytes < s[j].0
  {
    var last := |s| - 1;
    if last > 0 && s[last].0 > bytes { AtMeans(s[..last], bytes); }
  }

  /** Consecutive samples with one winner, as their first sample. */
  function Runs(s: seq<Sample>): seq<Sample> {
    if s == [] then []
    else
      var before := Runs(s[..|s| - 1]);
      var x := s[|s| - 1];
      if before != [] && before[|before| - 1].1 == x.1 then before else before + [x]
  }

  lemma {:induction false} RunsOrdered(s: seq<Sample>)
    requires s != [] && Increasing(s)
    ensures Runs(s) != [] && Increasing(Runs(s))
    ensures Runs(s)[|Runs(s)| - 1].0 <= s[|s| - 1].0
    ensures Runs(s)[|Runs(s)| - 1].1 == s[|s| - 1].1
  {
    if |s| == 1 {
      assert Runs(s[..0]) == [];
    } else {
      var t, x := s[..|s| - 1], s[|s| - 1];
      RunsOrdered(t);
      assert s == t + [x];
      RunsPush(t, x);
      hide Runs;
      assert t[|t| - 1].0 < x.0;
    }
  }

  /** Compacting keeps only measured samples, and never two neighbours with one winner. */
  lemma {:induction false} RunsCompact(s: seq<Sample>)
    ensures forall k :: 0 <= k < |Runs(s)| ==> Runs(s)[k] in s
    ensures forall k :: 0 < k < |Runs(s)| ==> Runs(s)[k].1 != Runs(s)[k - 1].1
  {
    if s != [] {
      RunsCompact(s[..|s| - 1]);
    }
  }

  /** Compacting keeps the winner of every byte count. */
  lemma {:induction false} RunsKeepWinner(s: seq<Sample>, bytes: nat)
    requires s != [] && Increasing(s)
    ensures Runs(s) != [] && Increasing(Runs(s))
    ensures Runs(s)[At(Runs(s), bytes)].1 == s[At(s, bytes)].1
  {
    RunsOrdered(s);
    if |s| > 1 {
      var t, x := s[..|s| - 1], s[|s| - 1];
      RunsKeepWinner(t, bytes);
      RunsOrdered(t);
      assert t[|t| - 1].0 < x.0;
      assert s == t + [x];
      PushKeepsWinner(t, x, bytes);
    } else {
      assert Runs(s[..0]) == [];
    }
  }

  lemma PushKeepsWinner(t: seq<Sample>, x: Sample, bytes: nat)
    requires t != [] && Runs(t) != [] && Runs(t)[|Runs(t)| - 1].0 <= x.0
    requires Runs(t)[At(Runs(t), bytes)].1 == t[At(t, bytes)].1
    ensures Runs(t + [x]) != []
    ensures Runs(t + [x])[At(Runs(t + [x]), bytes)].1 == (t + [x])[At(t + [x], bytes)].1
  {
    RunsPush(t, x);
    hide Runs, At;
    AtPush(t, x, bytes);
    AtPush(Runs(t), x, bytes);
    if x.0 <= bytes { AtTop(Runs(t), bytes); }
  }

  lemma AtPush(s: seq<Sample>, x: Sample, bytes: nat)
    requires s != []
    ensures At(s + [x], bytes) == if x.0 <= bytes then |s| else At(s, bytes)
  {
    assert (s + [x])[..|s|] == s;
  }

  lemma AtTop(s: seq<Sample>, bytes: nat)
    requires s != [] && s[|s| - 1].0 <= bytes
    ensures At(s, bytes) == |s| - 1
  {
  }

  lemma RunsPush(s: seq<Sample>, x: Sample)
    requires s != []
    ensures Runs(s + [x]) == if Runs(s) != [] && Runs(s)[|Runs(s)| - 1].1 == x.1 then Runs(s) else Runs(s) + [x]
  {
    assert (s + [x])[..|s|] == s;
  }

  // ------------------------------------------------------------ emitted rules

  /** The rule for run `i`: from its first size, or 0, to just below the next run's. */
  function RuleOf(collective: string, world: nat, runs: seq<Sample>, i: nat, cands: map<string, Policy>): Rule
    requires i < |runs| && runs[i].1 in cands
  {
    var c := cands[runs[i].1];
    Rule(collective, Some(world), if i == 0 then 0 else runs[i].0,
         if i + 1 < |runs| then Some(runs[i + 1].0 as int - 1) else None, Some(c.path), c.knobs)
  }

  ghost predicate Named(s: seq<Sample>, cands: map<string, Policy>) {
    forall i :: 0 <= i < |s| ==> s[i].1 in cands && cands[s[i].1].path != ""
  }

  lemma {:induction false} RunsNamed(s: seq<Sample>, cands: map<string, Policy>)
    requires Named(s, cands)
    ensures Named(Runs(s), cands)
  {
    if s != [] {
      RunsNamed(s[..|s| - 1], cands);
    }
  }

  /** The runs of one collective, as the benchmark collects them. */
  method CollectRuns(s: seq<Sample>) returns (runs: seq<Sample>)
    ensures runs == Runs(s)
  {
    runs := [];
    var prev: Option<string> := None;
    for i := 0 to |s|
      invariant runs == Runs(s[..i])
      invariant prev == if runs == [] then None else Some(runs[|runs| - 1].1)
    {
      var (size, name) := s[i];
      if prev != Some(name) {
        runs := runs + [(size, name)];
        prev := Some(name);
      }
      assert s[..i + 1][..i] == s[..i];
    }
    assert s[..|s|] == s;
  }

  /** `rules` are the rules of all runs of the collectives, and nothing else. */
  ghost predicate TableOf(rules: seq<Rule>, collectives: seq<string>, best: map<string, seq<Sample>>,
      world: nat, cands: map<string, Policy>)
    requires Measured(collectives, best, cands)
  {
    && (forall r :: r in rules ==> exists c: string, i: nat :: Emits(c, i, r, collectives, best, world, cands))
    && (forall c: string, i: nat :: c in collectives && i < |Runs(best[c])| ==>
        Emitted(c, i, collectives, best, world, cands) in rules)
  }

  ghost predicate Measured(collectives: seq<string>, best: map<string, seq<Sample>>, cands: map<string, Policy>) {
    forall c :: c in collectives ==> c in best && c != "*" && Increasing(best[c]) && Named(best[c], cands)
  }

  ghost function Emitted(c: string, i: nat, collectives: seq<string>, best: map<string, seq<Sample>>,
      world: nat, cands: map<string, Policy>): Rule
    requires Measured(collectives, best, cands) && c in collectives && i < |Runs(best[c])|
  {
    RunsNamed(best[c], cands);
    RuleOf(c, world, Runs(best[c]), i, cands)
  }

  ghost predicate Emits(c: string, i: nat, r: Rule, collectives: seq<string>, best: map<string, seq<Sample>>,
      world: nat, cands: map<string, Policy>)
    requires Measured(collectives, best, cands)
  {
    c in collectives && i < |Runs(best[c])| && r == Emitted(c, i, collectives, best, world, cands)
  }

  /** The rules of every collective, before they are sorted. */
  method EmitRules(collectives: seq<string>, best: map<string, seq<Sample>>, world: nat, cands: map<string, Policy>)
    returns (rules: seq<Rule>)
    requires Measured(collectives, best, cands)
    ensures TableOf(rules, collectives, best, world, cands)
  {
    hide Runs, Increasing, Named;
    rules := [];
    for k := 0 to |collectives|
      invariant forall r :: r in rules ==> exists c: string, i: nat :: Emits(c, i, r, collectives, best, world, cands)
      invariant forall m, i: nat :: 0 <= m < k && i < |Runs(best[collectives[m]])| ==>
        Emitted(collectives[m], i, collectives, best, world, cands) in rules
    {
      var coll := collectives[k];
      RunsNamed(best[coll], cands);
      var runs := CollectRuns(best[coll]);
      ghost var before := rules;
      for i := 0 to |runs|
        invariant forall r :: r in before ==> r in rules
        invariant forall r :: r in rules ==> exists c: string, j: nat :: Emits(c, j, r, collectives, best, world, cands)
        invariant forall j: nat :: j < i ==> Emitted(coll, j, collectives, best, world, cands) in rules
      {
        var c := cands[runs[i].1];
        var rule := Rule(coll, Some(world), if i == 0 then 0 else runs[i].0,
                         if i + 1 < |runs| then Some(runs[i + 1].0 as int - 1) else None, Some(c.path), c.knobs);
        assert Emits(coll, i, rule, collectives, best, world, cands);
        rules := rules + [rule];
      }
    }
  }

  /** Each byte count falls in exactly one rule of its collective. */
  lemma OneRule(c: string, world: nat, runs: seq<Sample>, i: nat, cands: map<string, Policy>, bytes: nat)
    requires Increasing(runs) && Named(runs, cands) && i < |runs|
    ensures Matches(RuleOf(c, world, runs, i, cands), c, world, bytes) <==> i == At(runs, bytes)
  {
    AtMeans(runs, bytes);
  }

  lemma EmittedMatch(c: string, i: nat, collectives: seq<string>, best: map<string, seq<Sample>>, world: nat,
      cands: map<string, Policy>,
                     coll: string, group: int, bytes: nat)
    requires Measured(collectives, best, cands) && c in collectives && i < |Runs(best[c])|
    ensures Matches(Emitted(c, i, collectives, best, world, cands), coll, group, bytes) <==>
      c == coll && group == world && i == At(Runs(best[c]), bytes)
    ensures best[c] != []
  {
    assert best[c] != [];
    RunsKeepWinner(best[c], bytes);
    RunsNamed(best[c], cands);
    OneRule(c, world, Runs(best[c]), i, cands, bytes);
  }

  /** In whatever order the rules end up, the table answers every query with the winner of
      the largest measured size not above it (the smallest size's below them all), and has
      no answer for a group size or a collective that was not measured. */
  lemma TableAnswers(rules: seq<Rule>, sorted: seq<Rule>, collectives: seq<string>, best: map<string, seq<Sample>>,
                     world: nat, cands: map<string, Policy>, coll: string, group: int, bytes: nat, i: nat)
    requires Measured(collectives, best, cands) && TableOf(rules, collectives, best, world, cands)
    requires multiset(sorted) == multiset(rules)
    requires i < |sorted| && Matches(sorted[i], coll, group, bytes)
    ensures group == world && coll in collectives && best[coll] != []
    ensures PolicyAt(sorted[i]) == cands[best[coll][At(best[coll], bytes)].1]
  {
    assert sorted[i] in multiset(sorted);
    assert sorted[i] in rules;
    var c: string, k: nat :| Emits(c, k, sorted[i], collectives, best, world, cands);
    EmittedMatch(c, k, collectives, best, world, cands, coll, group, bytes);
    RunsKeepWinner(best[c], bytes);
  }

  /** And it does answer for every measured collective: there are no gaps. */
  lemma TableHasNoGaps(rules: seq<Rule>, sorted: seq<Rule>, collectives: seq<string>, best: map<string, seq<Sample>>,
                       world: nat, cands: map<string, Policy>, coll: string, bytes: nat) returns (i: nat)
    requires Measured(collectives, best, cands) && TableOf(rules, collectives, best, world, cands)
    requires multiset(sorted) == multiset(rules)
    requires coll in collectives && best[coll] != []
    ensures i < |sorted| && Matches(sorted[i], coll, world, bytes)
  {
    RunsKeepWinner(best[coll], bytes);
    var k := At(Runs(best[coll]), bytes);
    var r := Emitted(coll, k, collectives, best, world, cands);
    assert r in rules;
    assert r in multiset(sorted);
    i :| 0 <= i < |sorted| && sorted[i] == r;
    EmittedMatch(coll, k, collectives, best, world, cands, coll, world, bytes);
  }

  /** Looking a query up in the tuned table, whatever order its rules are in. */
  method PolicyOfTunedTable(ghost rules: seq<Rule>, sorted: seq<Rule>, ghost collectives: seq<string>,
      ghost best: map<string, seq<Sample>>,
                            ghost world: nat, ghost cands: map<string, Policy>, coll: string, group: int, bytes: nat)
    returns (p: Option<Policy>)
    requires Measured(collectives, best, cands) && TableOf(rules, collectives, best, world, cands)
    requires multiset(sorted) == multiset(rules)
    ensures p == if group == world && coll in collectives && best[coll] != []
                 then Some(cands[best[coll][At(best[coll], bytes)].1]) else None
  {
    hide Matches, TableOf, At;
    p := PolicyFor(sorted, coll, group, bytes);
    if p.Some? {
      ghost var i :| 0 <= i < |sorted| && Matches(sorted[i], coll, group, bytes) && p.value == PolicyAt(sorted[i]);
      TableAnswers(rules, sorted, collectives, best, world, cands, coll, group, bytes, i);
    } else if group == world && coll in collectives && best[coll] != [] {
      ghost var i := TableHasNoGaps(rules, sorted, collectives, best, world, cands, coll, bytes);
      assert false;
    }
  }
}
