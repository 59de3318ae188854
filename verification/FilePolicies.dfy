/** Which access rule governs a path, and why managers cannot weaken a template. */
module FilePolicies {
  import opened Common

  datatype FilePolicy = Editable | ReadOnly | Managed

  datatype RuleSource = Template | ProjectManager

  datatype Rule = Rule(pattern: Path, policy: FilePolicy, source: RuleSource)

  function Rank(p: FilePolicy): nat
  {
    match p case Editable => 0 case ReadOnly => 1 case Managed => 2
  }

  /** Editable is the weakest policy, Managed the strictest. */
  predicate NoWeaker(p: FilePolicy, q: FilePolicy)
  {
    match q case Editable => true case ReadOnly => p != Editable case Managed => p == Managed
  }

  lemma RankOrders(p: FilePolicy, q: FilePolicy)
    ensures Rank(p) >= Rank(q) <==> NoWeaker(p, q)
  {
  }

  /** Patterns are a primary key. */
  ghost predicate Keyed(rules: seq<Rule>)
  {
    forall i, j :: 0 <= i < j < |rules| ==> rules[i].pattern != rules[j].pattern
  }

  predicate IsPrefixRule(r: Rule)
  {
    |r.pattern| >= 2 && r.pattern[|r.pattern|-2..] == "/*"
  }

  function PrefixOf(r: Rule): Path
    requires IsPrefixRule(r)
  {
    r.pattern[..|r.pattern|-2]
  }

  predicate Under(prefix: Path, path: Path)
  {
    |prefix| < |path| && prefix == path[..|prefix|] && path[|prefix|] == '/'
  }

  predicate Governs(r: Rule, path: Path)
  {
    IsPrefixRule(r) && Under(PrefixOf(r), path)
  }

  ghost predicate HasExact(rules: seq<Rule>, path: Path)
  {
    exists r :: r in rules && r.pattern == path
  }

  /** An exact rule, else the governing rule with the longest prefix. */
  ghost predicate Decides(rules: seq<Rule>, r: Rule, path: Path)
  {
    && r in rules
    && (r.pattern == path
        || (!HasExact(rules, path) && Governs(r, path)
            && forall s :: s in rules && Governs(s, path) ==> |PrefixOf(s)| <= |PrefixOf(r)|))
  }

  lemma SamePattern(rules: seq<Rule>, r: Rule, s: Rule)
    requires Keyed(rules) && r in rules && s in rules && r.pattern == s.pattern
    ensures r == s
  {
  }

  lemma DistinctPatterns(rules: seq<Rule>, r: Rule, s: Rule)
    requires Keyed(rules) && r in rules && s in rules && r != s
    ensures r.pattern != s.pattern
  {
  }

  lemma GoverningLengthsDiffer(r: Rule, s: Rule, path: Path)
    requires Governs(r, path) && Governs(s, path)
    ensures |PrefixOf(r)| == |PrefixOf(s)| ==> r.pattern == s.pattern
  {
    assert r.pattern == PrefixOf(r) + "/*" && s.pattern == PrefixOf(s) + "/*";
  }

  lemma DecidesUnique(rules: seq<Rule>, r: Rule, s: Rule, path: Path)
    requires Keyed(rules) && Decides(rules, r, path) && Decides(rules, s, path)
    ensures r == s
  {
    if r.pattern != path && s.pattern != path {
      GoverningLengthsDiffer(r, s, path);
    }
    SamePattern(rules, r, s);
  }

  /** The scan of policy_for_path_tx and template_policy_for_path_tx, row by row. */
  method SelectRule(rules: seq<Rule>, path: Path) returns (selected: Option<Rule>)
    ensures selected.Some? ==> Decides(rules, selected.value, path)
    ensures selected.None? ==> forall r :: r in rules ==> r.pattern != path && !Governs(r, path)
  {
    selected := None;
    for i := 0 to |rules|
      invariant forall r :: r in rules[..i] ==> r.pattern != path
      invariant selected.Some? ==> selected.value in rules[..i] && Governs(selected.value, path)
      invariant forall s :: s in rules[..i] && Governs(s, path) ==>
                  selected.Some? && |PrefixOf(s)| <= |PrefixOf(selected.value)|
    {
      var row := rules[i];
      if row.pattern == path {
        return Some(row);
      }
      if Governs(row, path) && (selected.None? || |PrefixOf(row)| > |PrefixOf(selected.value)|) {
        selected := Some(row);
      }
    }
    assert rules[..|rules|] == rules;
  }

  /** The declarative choice; `SelectRule` computes it for every row order. */
  ghost function Chosen(rules: seq<Rule>, path: Path): (c: Option<Rule>)
    ensures c.Some? ==> Decides(rules, c.value, path)
  {
    if exists r :: Decides(rules, r, path) then
      var r :| Decides(rules, r, path); Some(r)
    else None
  }

  lemma {:induction false} LongestExists(rules: seq<Rule>, path: Path, candidate: Rule, n: nat)
    requires n <= |rules| && !HasExact(rules, path)
    requires candidate in rules && Governs(candidate, path)
    requires forall s :: s in rules[n..] && Governs(s, path) ==> |PrefixOf(s)| <= |PrefixOf(candidate)|
    ensures exists r :: Decides(rules, r, path)
    decreases n
  {
    if n == 0 {
      assert rules[0..] == rules;
      assert Decides(rules, candidate, path);
    } else {
      var row := rules[n-1];
      assert rules[n-1..] == [row] + rules[n..];
      LongestExists(rules, path,
                    if Governs(row, path) && |PrefixOf(row)| > |PrefixOf(candidate)| then row else candidate, n - 1);
    }
  }

  lemma ChosenWhenGoverned(rules: seq<Rule>, path: Path)
    ensures Chosen(rules, path).Some? <==> exists r :: r in rules && (r.pattern == path || Governs(r, path))
  {
    if r :| r in rules && r.pattern == path {
      assert Decides(rules, r, path);
    } else if r :| r in rules && Governs(r, path) {
      assert rules[|rules|..] == [];
      LongestExists(rules, path, r, |rules|);
    }
  }

  /** Row order is irrelevant: any listing of the same rows chooses the same rule. */
  lemma ChoiceIgnoresRowOrder(rules: seq<Rule>, listed: seq<Rule>, path: Path)
    requires Keyed(rules) && Keyed(listed) && forall r :: r in rules <==> r in listed
    ensures Chosen(rules, path) == Chosen(listed, path)
  {
    forall r ensures Decides(rules, r, path) <==> Decides(listed, r, path) {
      assert HasExact(rules, path) <==> HasExact(listed, path);
    }
    if Chosen(rules, path).Some? {
      DecidesUnique(rules, Chosen(rules, path).value, Chosen(listed, path).value, path);
    }
  }

  ghost function Effective(rules: seq<Rule>, fallback: FilePolicy, path: Path): FilePolicy
  {
    match Chosen(rules, path) case Some(r) => r.policy case None => fallback
  }

  function TemplateRules(rules: seq<Rule>): seq<Rule>
  {
    if rules == [] then []
    else TemplateRules(rules[..|rules|-1]) + if rules[|rules|-1].source == Template then [rules[|rules|-1]] else []
  }

  lemma {:induction false} TemplateRulesMembers(rules: seq<Rule>)
    ensures forall r :: r in TemplateRules(rules) <==> r in rules && r.source == Template
    ensures Keyed(rules) ==> Keyed(TemplateRules(rules))
  {
    if rules != [] {
      var most := rules[..|rules|-1];
      TemplateRulesMembers(most);
      assert rules == most + [rules[|rules|-1]];
      if Keyed(rules) {
        assert Keyed(most);
        forall r | r in TemplateRules(most) ensures r.pattern != rules[|rules|-1].pattern {
          assert r in most;
        }
      }
    }
  }

  method PolicyForPath(rules: seq<Rule>, fallback: FilePolicy, path: Path) returns (policy: FilePolicy)
    requires Keyed(rules)
    ensures policy == Effective(rules, fallback, path)
  {
    var selected := SelectRule(rules, path);
    ChosenWhenGoverned(rules, path);
    if selected.Some? {
      DecidesUnique(rules, selected.value, Chosen(rules, path).value, path);
      policy := selected.value.policy;
    } else {
      policy := fallback;
    }
  }

  ghost function Floor(rules: seq<Rule>, path: Path): Option<FilePolicy>
  {
    match Chosen(TemplateRules(rules), path) case Some(r) => Some(r.policy) case None => None
  }

  method TemplatePolicyForPath(rules: seq<Rule>, path: Path) returns (policy: Option<FilePolicy>)
    requires Keyed(rules)
    ensures policy == Floor(rules, path)
  {
    TemplateRulesMembers(rules);
    var selected := SelectRule(TemplateRules(rules), path);
    ChosenWhenGoverned(TemplateRules(rules), path);
    if selected.Some? {
      DecidesUnique(TemplateRules(rules), selected.value, Chosen(TemplateRules(rules), path).value, path);
      policy := Some(selected.value.policy);
    } else {
      policy := None;
    }
  }

  // --- set_file_policy ---------------------------------------------------------------

  /** INSERT ... ON CONFLICT DO UPDATE: an existing row keeps its source. */
  function Upsert(rules: seq<Rule>, path: Path, policy: FilePolicy): seq<Rule>
  {
    if rules == [] then [Rule(path, policy, ProjectManager)]
    else if rules[0].pattern == path then [rules[0].(policy := policy)] + rules[1..]
    else [rules[0]] + Upsert(rules[1..], path, policy)
  }

  ghost predicate Allowed(rules: seq<Rule>, admin: bool, path: Path, policy: FilePolicy)
  {
    admin || Floor(rules, path) == None || Rank(policy) >= Rank(Floor(rules, path).value)
  }

  lemma {:induction false} UpsertMembers(rules: seq<Rule>, path: Path, policy: FilePolicy)
    requires Keyed(rules)
    ensures var after := Upsert(rules, path, policy);
            && Keyed(after)
            && (forall r :: r in rules && r.pattern != path ==> r in after)
            && (forall r :: r in rules && r.pattern == path ==> r.(policy := policy) in after)
            && (forall r :: r in after && r.pattern != path ==> r in rules)
            && (forall r :: r in after && r.pattern == path ==>
                  r.policy == policy && (r.source == ProjectManager || HasExact(rules, path)))
  {
    var after := Upsert(rules, path, policy);
    if rules != [] {
      assert rules == [rules[0]] + rules[1..];
      if rules[0].pattern == path {
        assert forall i :: 0 <= i < |after| ==> after[i] == if i == 0 then rules[0].(policy := policy) else rules[i];
      } else {
        UpsertMembers(rules[1..], path, policy);
        var rest := Upsert(rules[1..], path, policy);
        forall r | r in rest ensures r.pattern != rules[0].pattern {
        }
      }
    }
  }

  predicate Keeps(r: Rule, t: Rule)
  {
    r.pattern == t.pattern && r.source == Template && Rank(r.policy) >= Rank(t.policy)
  }

  ghost predicate KeptIn(t: Rule, rules: seq<Rule>)
  {
    exists r :: r in rules && Keeps(r, t)
  }

  ghost predicate StrictEnough(r: Rule, origin: seq<Rule>)
  {
    Chosen(origin, r.pattern).Some? ==> Rank(r.policy) >= Rank(Chosen(origin, r.pattern).value.policy)
  }

  /**
   * Compared with the rules at instantiation, the template's own rows are all still there and no weaker,
   * and every added row is at least as strict as the template was for that row's pattern.
   */
  ghost predicate Respects(origin: seq<Rule>, rules: seq<Rule>)
  {
    && Keyed(rules)
    && (forall t :: t in origin ==> KeptIn(t, rules))
    && (forall r :: r in rules && r.source == Template ==> HasExact(origin, r.pattern))
    && (forall r :: r in rules && r.source == ProjectManager ==> StrictEnough(r, origin))
  }

  /** Rules as instantiate_team_project_from_template copies them. */
  ghost predicate Instantiated(origin: seq<Rule>)
  {
    Keyed(origin) && forall t :: t in origin ==> t.source == Template
  }

  lemma InstantiationRespects(origin: seq<Rule>)
    requires Instantiated(origin)
    ensures Respects(origin, origin)
  {
    forall t | t in origin ensures KeptIn(t, origin) && HasExact(origin, t.pattern) {
      assert Keeps(t, t);
    }
  }

  /** The template rows still choose the same pattern, so today's floor is no lower than the original one. */
  lemma FloorHolds(origin: seq<Rule>, rules: seq<Rule>, path: Path)
    requires Instantiated(origin) && Respects(origin, rules) && Chosen(origin, path).Some?
    ensures Floor(rules, path).Some?
    ensures Rank(Floor(rules, path).value) >= Rank(Chosen(origin, path).value.policy)
  {
    var t := Chosen(origin, path).value;
    var kept := TemplateRules(rules);
    TemplateRulesMembers(rules);
    assert KeptIn(t, rules);
    var r :| r in rules && Keeps(r, t);
    KeptRuleDecides(origin, kept, t, r, path);
    DecidesUnique(kept, r, Chosen(kept, path).value, path);
  }

  lemma KeptRuleDecides(origin: seq<Rule>, kept: seq<Rule>, t: Rule, r: Rule, path: Path)
    requires forall s :: s in kept ==> HasExact(origin, s.pattern)
    requires Decides(origin, t, path) && r in kept && r.pattern == t.pattern
    ensures Decides(kept, r, path)
  {
    if t.pattern != path {
      forall s | s in kept && Governs(s, path) ensures |PrefixOf(s)| <= |PrefixOf(r)| {
        var o :| o in origin && o.pattern == s.pattern;
        assert Governs(o, path);
      }
      forall s | s in kept ensures s.pattern != path {
        assert HasExact(origin, s.pattern);
      }
    }
  }

  lemma AllowedCallRespects(origin: seq<Rule>, rules: seq<Rule>, path: Path, policy: FilePolicy)
    requires Instantiated(origin) && Respects(origin, rules) && Allowed(rules, false, path, policy)
    ensures Respects(origin, Upsert(rules, path, policy))
  {
    var after := Upsert(rules, path, policy);
    UpsertMembers(rules, path, policy);
    if Chosen(origin, path).Some? {
      FloorHolds(origin, rules, path);
    }
    forall t | t in origin ensures KeptIn(t, after) {
      assert KeptIn(t, rules);
      var r :| r in rules && Keeps(r, t);
      if r.pattern == path {
        assert Decides(origin, t, path);
        DecidesUnique(origin, t, Chosen(origin, path).value, path);
        assert Keeps(r.(policy := policy), t);
      }
    }
    forall r | r in after && r.source == Template ensures HasExact(origin, r.pattern) {
      if r.pattern == path {
        UpsertKeepsSource(rules, path, policy, r);
      }
    }
  }

  lemma {:induction false} UpsertKeepsSource(rules: seq<Rule>, path: Path, policy: FilePolicy, r: Rule)
    requires Keyed(rules) && r in Upsert(rules, path, policy) && r.pattern == path && r.source == Template
    ensures exists s :: s in rules && s.pattern == path && s.source == Template
  {
    if rules != [] {
      assert rules == [rules[0]] + rules[1..];
      if rules[0].pattern == path {
        var after := Upsert(rules, path, policy);
        assert after[0] == rules[0].(policy := policy) && rules[0] in rules;
        assert forall i :: 1 <= i < |after| ==> after[i] == rules[i] && after[i].pattern != path;
      } else {
        UpsertKeepsSource(rules[1..], path, policy, r);
      }
    }
  }

  /** A prefix rule's own pattern lies under exactly the prefixes that the files below it lie under, up to its own. */
  lemma PatternInheritsFloor(origin: seq<Rule>, r: Rule, path: Path)
    requires Keyed(origin) && Chosen(origin, path).Some? && Governs(r, path)
    requires !HasExact(origin, path) && !HasExact(origin, r.pattern)
    requires |PrefixOf(Chosen(origin, path).value)| < |PrefixOf(r)|
    ensures Chosen(origin, r.pattern) == Chosen(origin, path)
  {
    var t := Chosen(origin, path).value;
    var q := PrefixOf(r);
    assert r.pattern == q + "/*";
    assert Governs(t, r.pattern) by {
      assert forall i :: 0 <= i < |q| ==> r.pattern[i] == path[i];
    }
    forall s | s in origin && Governs(s, r.pattern) ensures |PrefixOf(s)| <= |PrefixOf(t)| {
      var n := |PrefixOf(s)|;
      assert r.pattern[|q|] == '/' && r.pattern[|q|+1] == '*';
      assert n <= |q|;
      assert PrefixOf(s) == path[..n] by {
        assert r.pattern[..n] == path[..n];
      }
      assert Governs(s, path);
    }
    assert Decides(origin, t, r.pattern);
    DecidesUnique(origin, t, Chosen(origin, r.pattern).value, r.pattern);
  }

  /** An added row that governs a path comes from a pattern the template floor already covered. */
  lemma AddedRuleIsCovered(origin: seq<Rule>, rules: seq<Rule>, r: Rule, path: Path)
    requires Instantiated(origin) && Respects(origin, rules) && Chosen(origin, path).Some?
    requires Decides(rules, r, path) && r.source == ProjectManager
    ensures Chosen(origin, r.pattern) == Chosen(origin, path)
  {
    var t := Chosen(origin, path).value;
    assert KeptIn(t, rules);
    var s :| s in rules && Keeps(s, t);
    if r.pattern != path {
      forall o | o in origin ensures o.pattern != path && o.pattern != r.pattern {
        assert KeptIn(o, rules);
        var k :| k in rules && Keeps(k, o);
        DistinctPatterns(rules, k, r);
      }
      assert Governs(s, path);
      DistinctPatterns(rules, s, r);
      GoverningLengthsDiffer(s, r, path);
      PatternInheritsFloor(origin, r, path);
    }
  }

  lemma RespectingRulesAreNoWeaker(origin: seq<Rule>, rules: seq<Rule>, fallback: FilePolicy, path: Path)
    requires Instantiated(origin) && Respects(origin, rules) && Chosen(origin, path).Some?
    ensures NoWeaker(Effective(rules, fallback, path), Chosen(origin, path).value.policy)
  {
    FloorHolds(origin, rules, path);
    TemplateRulesMembers(rules);
    var floor := Chosen(TemplateRules(rules), path).value;
    ChosenWhenGoverned(rules, path);
    var r := Chosen(rules, path).value;
    if r.source == Template {
      DecidesUnique(TemplateRules(rules), r, floor, path);
    } else {
      AddedRuleIsCovered(origin, rules, r, path);
      assert StrictEnough(r, origin);
    }
    RankOrders(r.policy, Chosen(origin, path).value.policy);
  }

  datatype PolicyCall = PolicyCall(path: Path, policy: FilePolicy)

  /** A run of non-admin calls; a refused call changes nothing. */
  ghost function AfterCalls(rules: seq<Rule>, calls: seq<PolicyCall>): seq<Rule>
  {
    if calls == [] then rules
    else
      var before := AfterCalls(rules, calls[..|calls|-1]);
      var call := calls[|calls|-1];
      if Allowed(before, false, call.path, call.policy) then Upsert(before, call.path, call.policy) else before
  }

  lemma {:induction false} CallsRespect(origin: seq<Rule>, calls: seq<PolicyCall>)
    requires Instantiated(origin)
    ensures Respects(origin, AfterCalls(origin, calls))
  {
    if calls == [] {
      InstantiationRespects(origin);
    } else {
      CallsRespect(origin, calls[..|calls|-1]);
      var before, call := AfterCalls(origin, calls[..|calls|-1]), calls[|calls|-1];
      if Allowed(before, false, call.path, call.policy) {
        AllowedCallRespects(origin, before, call.path, call.policy);
      }
    }
  }

  /** No run of manager calls makes a path weaker than its template rules made it. */
  lemma TemplateNeverWeakens(origin: seq<Rule>, fallback: FilePolicy, calls: seq<PolicyCall>, path: Path)
    requires Instantiated(origin) && Chosen(origin, path).Some?
    ensures NoWeaker(Effective(AfterCalls(origin, calls), fallback, path), Effective(origin, fallback, path))
  {
    CallsRespect(origin, calls);
    RespectingRulesAreNoWeaker(origin, AfterCalls(origin, calls), fallback, path);
  }

  /** A call is allowed to administrators, and to managers exactly for policies no weaker than the template's own. */
  lemma AllowedExactly(rules: seq<Rule>, admin: bool, path: Path, policy: FilePolicy)
    requires Keyed(rules)
    ensures Allowed(rules, admin, path, policy)
        <==> admin || forall r :: Decides(TemplateRules(rules), r, path) ==> NoWeaker(policy, r.policy)
  {
    TemplateRulesMembers(rules);
    var template := TemplateRules(rules);
    if Chosen(template, path).Some? {
      forall r | Decides(template, r, path) ensures r == Chosen(template, path).value {
        DecidesUnique(template, r, Chosen(template, path).value, path);
      }
      RankOrders(policy, Chosen(template, path).value.policy);
    }
  }

  /** The path then has the policy that was set. */
  lemma PolicyTakesEffect(rules: seq<Rule>, fallback: FilePolicy, path: Path, policy: FilePolicy)
    requires Keyed(rules)
    ensures Effective(Upsert(rules, path, policy), fallback, path) == policy
  {
    var after := Upsert(rules, path, policy);
    UpsertMembers(rules, path, policy);
    UpsertHasPattern(rules, path, policy);
    var r :| r in after && r.pattern == path;
    assert Decides(after, r, path);
    DecidesUnique(after, r, Chosen(after, path).value, path);
  }

  lemma {:induction false} UpsertHasPattern(rules: seq<Rule>, path: Path, policy: FilePolicy)
    ensures exists r :: r in Upsert(rules, path, policy) && r.pattern == path
  {
    var after := Upsert(rules, path, policy);
    if rules != [] && rules[0].pattern != path {
      UpsertHasPattern(rules[1..], path, policy);
      var r :| r in Upsert(rules[1..], path, policy) && r.pattern == path;
      assert r in after;
    } else {
      assert after[0] in after;
    }
  }

  /** A rule for a directory governs exactly what lies below it. */
  lemma GovernsExactly(directory: Path, policy: FilePolicy, source: RuleSource, path: Path)
    ensures Governs(Rule(directory + "/*", policy, source), path) <==> exists rest :: path == directory + "/" + rest
  {
    var r := Rule(directory + "/*", policy, source);
    assert r.pattern[|r.pattern|-2..] == "/*" && PrefixOf(r) == directory;
    if Under(directory, path) {
      assert path == directory + "/" + path[|directory|+1..];
    }
    if rest :| path == directory + "/" + rest {
      assert path[..|directory|] == directory;
    }
  }

  /** Nothing else governs: a rule for a single path is exact or does not apply. */
  lemma OnlyDirectoriesGovern(r: Rule, path: Path)
    ensures Governs(r, path) ==> exists directory :: r.pattern == directory + "/*"
  {
    if IsPrefixRule(r) {
      assert r.pattern == PrefixOf(r) + "/*";
    }
  }
}
