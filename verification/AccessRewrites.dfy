/**
What the Control Tower does to policies before it signs them: cutting an agent's
rules down to its ceiling in place, replacing an administrator's rules, and
joining the contexts of two mounts.
*/
module AccessRewrites {
  import opened Wrappers
  import opened FileTypes
  import opened AccessContext

  // ---------- The ceiling of an agent ----------

  function KeptCapabilities(caps: seq<Option<Capability>>, allowed: set<Capability>): (r: seq<Option<Capability>>)
    ensures forall c :: c in r <==> c in caps && c.Some? && c.value in allowed
  {
    if caps == [] then []
    else
      var last := |caps| - 1;
      var before := KeptCapabilities(caps[..last], allowed);
      if caps[last].Some? && caps[last].value in allowed then before + [caps[last]] else before
  }

  /** Denies stay as they are; any other rule keeps what the ceiling allows, or goes. */
  function Lowered(r: Rule, allowed: set<Capability>): Option<Rule> {
    if HasCapability(r, Deny) then Some(r)
    else
      var kept := KeptCapabilities(r.capabilities, allowed);
      if kept == [] then None else Some(r.(capabilities := kept))
  }

  function Ceiling(rules: seq<Rule>, allowed: set<Capability>): (r: seq<Rule>)
    ensures |r| <= |rules|
  {
    if rules == [] then []
    else
      var last := |rules| - 1;
      var before := Ceiling(rules[..last], allowed);
      match Lowered(rules[last], allowed)
      case Some(rule) => before + [rule]
      case None => before
  }

  method KeepCapabilities(capabilities: seq<Option<Capability>>, allowed: set<Capability>) returns (kept: seq<Option<Capability>>)
    ensures kept == KeptCapabilities(capabilities, allowed)
  {
    kept := [];
    for i := 0 to |capabilities|
      invariant kept == KeptCapabilities(capabilities[..i], allowed)
    {
      assert capabilities[..i + 1][..i] == capabilities[..i];
      if capabilities[i].Some? && capabilities[i].value in allowed {
        kept := kept + [capabilities[i]];
      }
    }
    assert capabilities[..|capabilities|] == capabilities;
  }

  method IsDeny(capabilities: seq<Option<Capability>>) returns (deny: bool)
    ensures deny <==> Some(Deny) in capabilities
  {
    deny := false;
    for i := 0 to |capabilities|
      invariant deny <==> Some(Deny) in capabilities[..i]
    {
      deny := deny || capabilities[i] == Some(Deny);
    }
    assert capabilities[..|capabilities|] == capabilities;
  }

  /** The rules that stay are moved to the front of the same array. */
  method LowerToCeiling(rules: array<Rule>, allowed: set<Capability>) returns (kept: nat)
    modifies rules
    ensures kept <= rules.Length && rules[..kept] == Ceiling(old(rules[..]), allowed)
  {
    kept := 0;
    ghost var before := rules[..];
    for i := 0 to rules.Length
      invariant kept <= i
      invariant rules[..kept] == Ceiling(before[..i], allowed)
      invariant rules[i..] == before[i..]
    {
      assert before[..i + 1][..i] == before[..i];
      var rule := rules[i];
      assert rule == rules[i..][0] == before[i];
      var deny := IsDeny(rule.capabilities);
      if !deny {
        var caps := KeepCapabilities(rule.capabilities, allowed);
        if caps == [] {
          assert rules[i + 1..] == rules[i..][1..];
          continue;
        }
        rule := rule.(capabilities := caps);
      }
      ghost var rest := rules[i + 1..];
      assert rest == rules[i..][1..] == before[i + 1..];
      rules[kept] := rule;
      assert rules[i + 1..] == rest;
      assert rules[..kept + 1] == rules[..kept] + [rule];
      kept := kept + 1;
    }
    assert before[..rules.Length] == before;
  }

  lemma {:induction false} CeilingHolds(rules: seq<Rule>, allowed: set<Capability>, rule: Rule)
    ensures rule in Ceiling(rules, allowed) <==> exists r :: r in rules && Lowered(r, allowed) == Some(rule)
    decreases |rules|
  {
    if rules != [] {
      var last := |rules| - 1;
      CeilingHolds(rules[..last], allowed, rule);
      assert rules == rules[..last] + [rules[last]];
    }
  }

  lemma CeilingPatterned(rules: seq<Rule>, allowed: set<Capability>)
    requires Patterned(rules)
    ensures Patterned(Ceiling(rules, allowed))
  {
    forall rule | rule in Ceiling(rules, allowed)
      ensures rule.path != []
    {
      CeilingHolds(rules, allowed, rule);
    }
  }

  /** A capability whose grants the ceiling neither cuts nor widens: `write` stands for create and update. */
  predicate CutCleanly(allowed: set<Capability>, c: Capability) {
    (c == Create || c == Update) ==> (Write in allowed <==> c in allowed)
  }

  lemma LoweredSame(r: Rule, allowed: set<Capability>, q: Question)
    requires r.path != [] && q.resource != [] && q.capability in allowed
    requires (q.capability == Create || q.capability == Update) ==> Write in allowed
    ensures match Lowered(r, allowed)
            case Some(low) => low.path != [] && Denies(low, q) == Denies(r, q) && Allows(low, q) == Allows(r, q)
                              && Restricts(low, q) == Restricts(r, q) && Hides(low, q) == Hides(r, q)
            case None => !Denies(r, q) && !Allows(r, q) && !Restricts(r, q)
  {
    hide PathMatches, Selects, PlainName;
    if !HasCapability(r, Deny) {
      var kept := KeptCapabilities(r.capabilities, allowed);
      assert forall c :: c in allowed ==> (Some(c) in kept <==> Some(c) in r.capabilities);
    }
  }

  /** Inside the ceiling the whole decision is unchanged, for every resource and kind of entry. */
  lemma CeilingKeepsDecision(rules: seq<Rule>, allowed: set<Capability>, q: Question)
    requires Patterned(rules) && q.capability in allowed
    requires (q.capability == Create || q.capability == Update) ==> Write in allowed
    ensures Patterned(Ceiling(rules, allowed)) && Meaning(Ceiling(rules, allowed), q) == Meaning(rules, q)
  {
    hide Denies, Allows, Restricts, Hides, ValidResource, Lowered;
    CeilingPatterned(rules, allowed);
    if Answerable(q) {
      NotEmpty(q.resource);
      var low := Ceiling(rules, allowed);
      forall r | r in rules
        ensures Denies(r, q) ==> exists l :: l in low && Denies(l, q)
        ensures Allows(r, q) ==> exists l :: l in low && Allows(l, q)
        ensures Restricts(r, q) ==> exists l :: l in low && Restricts(l, q)
        ensures Hides(r, q) ==> exists l :: l in low && Hides(l, q)
      {
        LoweredSame(r, allowed, q);
        HidesRestricts(r, q);
        if Lowered(r, allowed).Some? {
          CeilingHolds(rules, allowed, Lowered(r, allowed).value);
        }
      }
      forall l | l in low
        ensures exists r :: r in rules && Denies(r, q) == Denies(l, q) && Allows(r, q) == Allows(l, q)
                            && Restricts(r, q) == Restricts(l, q) && Hides(r, q) == Hides(l, q)
      {
        CeilingHolds(rules, allowed, l);
        var r :| r in rules && Lowered(r, allowed) == Some(l);
        LoweredSame(r, allowed, q);
      }
    }
  }

  lemma HidesRestricts(r: Rule, q: Question)
    requires r.path != [] && q.resource != []
    ensures Hides(r, q) ==> Restricts(r, q)
  {
  }

  /** Outside the ceiling nothing is allowed. */
  lemma CeilingAllowsNothingOutside(rules: seq<Rule>, allowed: set<Capability>, q: Question)
    requires Patterned(rules) && q.capability !in allowed
    requires (q.capability == Create || q.capability == Update) ==> Write !in allowed
    ensures Patterned(Ceiling(rules, allowed)) && !Meaning(Ceiling(rules, allowed), q).allowed
  {
    CeilingPatterned(rules, allowed);
    if Answerable(q) {
      forall l | l in Ceiling(rules, allowed)
        ensures !Allows(l, q)
      {
        CeilingHolds(rules, allowed, l);
      }
    }
  }

  ghost predicate Faithful(allowed: set<Capability>, rules: seq<Rule>, q: Question)
    requires Patterned(rules)
  {
    CeilingPatterned(rules, allowed);
    if q.capability in allowed then Meaning(Ceiling(rules, allowed), q) == Meaning(rules, q)
    else !Meaning(Ceiling(rules, allowed), q).allowed
  }

  /**
  The ceiling is faithful to every list of rules exactly for the capabilities it
  cuts cleanly: a ceiling with create but not write loses grants made with write,
  and one with write but not create leaves create granted.
  */
  lemma CeilingFaithfulExactly(allowed: set<Capability>, c: Capability, resource: seq<string>)
    requires ValidResource(resource) && c != Deny && Deny !in allowed
    ensures (forall rules: seq<Rule>, q: Question | Patterned(rules) && q.capability == c :: Faithful(allowed, rules, q))
            <==> CutCleanly(allowed, c)
  {
    if CutCleanly(allowed, c) {
      forall rules: seq<Rule>, q: Question | Patterned(rules) && q.capability == c
        ensures Faithful(allowed, rules, q)
      {
        if c in allowed {
          CeilingKeepsDecision(rules, allowed, q);
        } else {
          CeilingAllowsNothingOutside(rules, allowed, q);
        }
      }
    } else {
      var q := Question(resource, c, Directory);
      var rule := Rule("p", ["**"], [Some(Write)], None, Unset);
      assert Patterned([rule]) && !Faithful(allowed, [rule], q) by {
        WriteRuleUnfaithful(allowed, q, rule);
      }
    }
  }

  lemma WriteRuleUnfaithful(allowed: set<Capability>, q: Question, rule: Rule)
    requires rule == Rule("p", ["**"], [Some(Write)], None, Unset) && ValidResource(q.resource) && q.entry == Directory
    requires (q.capability == Create || q.capability == Update) && !CutCleanly(allowed, q.capability) && Deny !in allowed
    ensures !Faithful(allowed, [rule], q)
  {
    hide ValidResource;
    NotEmpty(q.resource);
    assert HasCapability(rule, Write) && !HasCapability(rule, Deny);
    assert Allows(rule, q);
    assert rule in [rule];
    assert Meaning([rule], q).allowed by {
      assert forall r | r in [rule] :: !Denies(r, q);
    }
    assert [rule][..0] == [];
    var kept := KeptCapabilities(rule.capabilities, allowed);
    assert rule.capabilities[..0] == [] && KeptCapabilities(rule.capabilities[..0], allowed) == [];
    if Write in allowed {
      assert kept == [Some(Write)];
      assert Lowered(rule, allowed) == Some(rule);
      assert Ceiling([rule], allowed) == [rule];
    } else {
      assert kept == [];
      assert Ceiling([rule], allowed) == [];
    }
  }

  /** The ceilings an agent can be given are parts of read and list, which are always cut cleanly. */
  lemma AgentCeilingsAreFaithful(rules: seq<Rule>, allowed: set<Capability>, q: Question)
    requires Patterned(rules) && allowed <= {Read, List}
    ensures Faithful(allowed, rules, q)
  {
    if q.capability in allowed {
      CeilingKeepsDecision(rules, allowed, q);
    } else {
      CeilingAllowsNothingOutside(rules, allowed, q);
    }
  }

  // ---------- The rules of an administrator ----------

  datatype Policy = Policy(id: string, rules: seq<Rule>)

  predicate Given(policies: seq<Policy>, r: Rule) {
    exists k :: 0 <= k < |policies| && r in policies[k].rules
  }

  predicate TypedDeny(r: Rule) {
    r.types.Some? && HasCapability(r, Deny)
  }

  function AdminRule(base: seq<string>): Rule {
    Rule("builtin-admin", base + ["**"], [Some(Read), Some(List), Some(Create), Some(Update)], None, Unset)
  }

  /** The typed denies of a list, in their order. */
  function DeniesOf(rules: seq<Rule>): (denies: seq<Rule>)
    ensures forall r :: r in denies <==> r in rules && TypedDeny(r)
  {
    if rules == [] then []
    else
      var last := |rules| - 1;
      assert rules == rules[..last] + [rules[last]];
      DeniesOf(rules[..last]) + if TypedDeny(rules[last]) then [rules[last]] else []
  }

  function AllDenies(policies: seq<Policy>): seq<Rule> {
    if policies == [] then [] else AllDenies(policies[..|policies| - 1]) + DeniesOf(policies[|policies| - 1].rules)
  }

  /** The built-in grant on the mount, and the typed denies of every policy. */
  method AdminRules(base: seq<string>, policies: seq<Policy>) returns (rules: seq<Rule>)
    ensures rules == [AdminRule(base)] + AllDenies(policies)
    ensures forall r :: r in rules <==> r == AdminRule(base) || (TypedDeny(r) && Given(policies, r))
  {
    hide DeniesOf, TypedDeny;
    rules := [AdminRule(base)];
    for i := 0 to |policies|
      invariant rules == [AdminRule(base)] + AllDenies(policies[..i])
    {
      assert policies[..i + 1][..i] == policies[..i];
      var denies := TypedDenies(policies[i].rules);
      if |denies| > 0 {
        rules := rules + denies;
      }
    }
    assert policies[..|policies|] == policies;
    forall r
      ensures r in rules <==> r == AdminRule(base) || (TypedDeny(r) && Given(policies, r))
    {
      DeniesGiven(policies, r);
    }
  }

  lemma {:induction false} DeniesGiven(policies: seq<Policy>, r: Rule)
    ensures r in AllDenies(policies) <==> TypedDeny(r) && Given(policies, r)
    decreases |policies|
  {
    hide TypedDeny, Given, DeniesOf;
    if policies == [] {
      NoneGiven(r);
    } else {
      var last := |policies| - 1;
      DeniesGiven(policies[..last], r);
      GivenLast(policies, r);
      assert r in DeniesOf(policies[last].rules) <==> r in policies[last].rules && TypedDeny(r);
    }
  }

  lemma NoneGiven(r: Rule)
    ensures !Given([], r)
  {
  }

  lemma GivenLast(policies: seq<Policy>, r: Rule)
    requires policies != []
    ensures Given(policies, r) <==> Given(policies[..|policies| - 1], r) || r in policies[|policies| - 1].rules
  {
    var most := policies[..|policies| - 1];
    assert forall k | 0 <= k < |most| :: most[k] == policies[k];
  }

  method TypedDenies(rules: seq<Rule>) returns (denies: seq<Rule>)
    ensures denies == DeniesOf(rules)
  {
    denies := [];
    for i := 0 to |rules|
      invariant denies == DeniesOf(rules[..i])
    {
      assert rules[..i + 1][..i] == rules[..i];
      if rules[i].types.None? {
        continue;
      }
      var deny := IsDeny(rules[i].capabilities);
      if deny {
        denies := denies + [rules[i]];
      }
    }
    assert rules[..|rules|] == rules;
  }

  predicate Plain(base: seq<string>) {
    forall part | part in base :: part != "*" && part != "**"
  }

  lemma UnderBase(base: seq<string>, resource: seq<string>)
    requires Plain(base)
    ensures PathMatches(base + ["**"], resource) <==> base <= resource
  {
    assert Fixed(base + ["**"]) == base;
    if PathMatches(base + ["**"], resource) {
      forall i | 0 <= i < |base|
        ensures base[i] == resource[i]
      {
        assert base[i] in base;
        assert Fixed(base + ["**"])[i] == base[i];
      }
    }
  }

  /**
  An administrator may read, list, create and update on the whole mount, but for
  the files a typed deny of any policy denies; and nothing else.
  */
  lemma AdminMeaning(base: seq<string>, policies: seq<Policy>, rules: seq<Rule>, q: Question)
    requires Plain(base) && Patterned(rules) && Answerable(q)
    requires forall r :: r in rules <==> r == AdminRule(base) || (TypedDeny(r) && Given(policies, r))
    ensures q.resource != []
    ensures Meaning(rules, q).allowed <==>
              && q.capability in {Read, List, Create, Update}
              && base <= q.resource
              && (q.entry == Directory || !exists r :: Given(policies, r) && r.path != [] && TypedDeny(r) && Denies(r, q))
  {
    hide ValidResource, PathMatches, OfType;
    NotEmpty(q.resource);
    var grant := AdminRule(base);
    assert grant in rules;
    UnderBase(base, q.resource);
    assert forall c :: HasCapability(grant, c) <==> c in {Read, List, Create, Update};
    assert OfType(grant, q) by {
      GrantOfType(grant, q);
    }
    assert Allows(grant, q) <==> q.capability in {Read, List, Create, Update} && base <= q.resource;
    assert forall r | r in rules && r != grant :: !Allows(r, q) && (q.entry == Directory ==> !Denies(r, q));
    assert !Denies(grant, q);
  }

  lemma GrantOfType(r: Rule, q: Question)
    requires r.types.None? && q.resource != []
    ensures OfType(r, q)
  {
  }

  // ---------- Joining contexts ----------

  function Concat(parts: seq<seq<Rule>>): seq<Rule> {
    if parts == [] then [] else Concat(parts[..|parts| - 1]) + parts[|parts| - 1]
  }

  /** Parts are joined in their order, nothing left out. */
  lemma {:induction false} ConcatAdds(parts: seq<seq<Rule>>, part: seq<Rule>)
    ensures Concat(parts + [part]) == Concat(parts) + part
    ensures Concat([]) == []
  {
    var all := parts + [part];
    assert all[..|all| - 1] == parts && all[|all| - 1] == part;
  }

  function JoinAll(parts: seq<seq<Rule>>, q: Question): Decision
    requires forall i | 0 <= i < |parts| :: Patterned(parts[i])
  {
    if parts == [] then REFUSED else Join(JoinAll(parts[..|parts| - 1], q), Meaning(parts[|parts| - 1], q))
  }

  /** Joined contexts are never truncated: they fit, all of them, or nothing is made. */
  method MergeContexts(parts: seq<seq<Rule>>) returns (merged: Option<seq<Rule>>)
    ensures merged.Some? <==> |Concat(parts)| <= MAX_RULES && forall i | 0 <= i < |Concat(parts)| :: ValidRule(Concat(parts)[i])
    ensures merged.Some? ==> merged.value == Concat(parts)
  {
    hide ValidRule;
    var rules: seq<Rule> := [];
    for i := 0 to |parts|
      invariant rules == Concat(parts[..i])
    {
      assert parts[..i + 1][..i] == parts[..i];
      rules := rules + parts[i];
    }
    assert parts[..|parts|] == parts;
    if |rules| > MAX_RULES {
      return None;
    }
    var compiled := Compile(1, rules);
    merged := if compiled.Some? then Some(rules) else None;
  }

  /** The decision of a joined context is the join of the decisions of its parts. */
  lemma {:induction false} MergedDecision(parts: seq<seq<Rule>>, q: Question)
    requires forall i | 0 <= i < |parts| :: Patterned(parts[i])
    ensures Patterned(Concat(parts)) && Meaning(Concat(parts), q) == JoinAll(parts, q)
    decreases |parts|
  {
    if parts != [] {
      var last := |parts| - 1;
      MergedDecision(parts[..last], q);
      JoinedRulesJoinDecisions(Concat(parts[..last]), parts[last], q);
    }
  }
}
