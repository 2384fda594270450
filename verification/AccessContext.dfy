/**
The access context a node enforces: compiled rules, and one decision for a path,
a capability and a kind of entry. Paths are lists of segments. The loop that
tracks specificity is proved to decide a condition that no order of rules can
change.
*/
module AccessContext {
  import opened Wrappers
  import opened FileTypes

  const MAX_RULES := 256
  const CAPABILITIES := 9

  datatype Capability = Read | List | Create | Update | Delete | Write | Execute | Sudo | Deny

  datatype Visibility = Unset | Hidden | Visible | Unrecognised

  /** A name that is no capability is None. */
  datatype Rule = Rule(
    policy: string,
    path: seq<string>,
    capabilities: seq<Option<Capability>>,
    types: Option<Selector>,
    visibility: Visibility)

  datatype Compiled = Compiled(path: seq<string>, caps: set<Capability>, matcher: Option<Matcher>, hidden: bool)

  datatype Entry = File | Directory | Unsupported

  datatype Decision = Decision(allowed: bool, denied: bool, visible: bool, restricted: bool)

  // ---------- Paths ----------

  predicate PatternChar(c: char) {
    ' ' <= c && c != '\U{7f}' && c !in "\\/?#&=%*"
  }

  predicate ResourceChar(c: char) {
    ' ' <= c && c != '\U{7f}' && c != '\\' && c != '/'
  }

  predicate PatternPart(part: string, last: bool) {
    && part != "" && part != "." && part != ".."
    && (part == "**" ==> last)
    && (part == "*" || part == "**" || forall i | 0 <= i < |part| :: PatternChar(part[i]))
  }

  predicate ValidPattern(p: seq<string>) {
    p != [] && forall i | 0 <= i < |p| :: PatternPart(p[i], i == |p| - 1)
  }

  predicate ValidResource(p: seq<string>) {
    p != [] && forall i | 0 <= i < |p| ::
      p[i] !in {"", ".", "..", "*", "**"} && forall k | 0 <= k < |p[i]| :: ResourceChar(p[i][k])
  }

  function Fixed(pattern: seq<string>): seq<string>
    requires pattern != []
  {
    if pattern[|pattern| - 1] == "**" then pattern[..|pattern| - 1] else pattern
  }

  /** Each fixed segment is the resource's or a star; only a trailing double star lets the resource go on. */
  predicate PathMatches(pattern: seq<string>, resource: seq<string>)
    requires pattern != []
  {
    var parts := Fixed(pattern);
    && (if pattern[|pattern| - 1] == "**" then |parts| <= |resource| else |parts| == |resource|)
    && forall i | 0 <= i < |parts| :: parts[i] == "*" || parts[i] == resource[i]
  }

  /** A fixed segment counts more the longer it is; a star counts nothing. */
  function Weight(parts: seq<string>): (w: nat)
    ensures w <= 0 ==> forall i | 0 <= i < |parts| :: parts[i] == "*"
  {
    if parts == [] then 0
    else Weight(parts[..|parts| - 1]) + if parts[|parts| - 1] == "*" then 0 else 100 + |parts[|parts| - 1]|
  }

  function Specificity(pattern: seq<string>): nat
    requires pattern != []
  {
    Weight(Fixed(pattern)) + if pattern[|pattern| - 1] == "**" then 0 else |pattern|
  }

  method MatchPath(pattern: seq<string>, resource: seq<string>) returns (matches: bool, score: int)
    requires pattern != []
    ensures matches <==> PathMatches(pattern, resource)
    ensures score == if matches then Specificity(pattern) else 0
  {
    var parts := pattern;
    var recursive := parts[|parts| - 1] == "**";
    if recursive {
      parts := parts[..|parts| - 1];
      if |resource| < |parts| {
        return false, 0;
      }
    } else if |parts| != |resource| {
      return false, 0;
    }
    score := 0;
    for i := 0 to |parts|
      invariant score == Weight(parts[..i])
      invariant forall k | 0 <= k < i :: parts[k] == "*" || parts[k] == resource[k]
    {
      assert parts[..i + 1][..i] == parts[..i];
      if parts[i] == "*" {
        continue;
      }
      if parts[i] != resource[i] {
        return false, 0;
      }
      score := score + 100 + |parts[i]|;
    }
    assert parts[..|parts|] == parts;
    if !recursive {
      score := score + |parts|;
    }
    return true, score;
  }

  // ---------- Compiling ----------

  predicate PolicyName(name: string) {
    name != "" && |name| <= 128 && '/' !in name && '\\' !in name && '\0' !in name
  }

  predicate DistinctCapabilities(caps: seq<Option<Capability>>) {
    && (forall i | 0 <= i < |caps| :: caps[i].Some?)
    && (forall i, j | 0 <= i < j < |caps| :: caps[i] != caps[j])
  }

  predicate ValidRule(r: Rule) {
    && PolicyName(r.policy)
    && ValidPattern(r.path)
    && 1 <= |r.capabilities| <= CAPABILITIES
    && r.visibility != Unrecognised
    && DistinctCapabilities(r.capabilities)
    && (r.types.Some? ==> ValidSelector(r.types.value))
  }

  predicate HasCapability(r: Rule, c: Capability) {
    Some(c) in r.capabilities
  }

  /** The compiled rule says the same as the rule. */
  ghost predicate Compiles(r: Rule, c: Compiled) {
    && c.path == r.path
    && (forall cap :: cap in c.caps <==> HasCapability(r, cap))
    && |c.caps| == |r.capabilities|
    && (c.matcher.Some? <==> r.types.Some?)
    && (c.matcher.Some? ==> forall name: string ::
          Matches(c.matcher.value, name) <==> PlainName(name) && Selects(r.types.value, Lower(name)))
    && c.hidden == (r.visibility != Visible)
  }

  method CollectCapabilities(capabilities: seq<Option<Capability>>) returns (r: Option<set<Capability>>)
    ensures r.Some? <==> DistinctCapabilities(capabilities)
    ensures r.Some? ==> |r.value| == |capabilities| && forall c :: c in r.value <==> Some(c) in capabilities
  {
    var caps: set<Capability> := {};
    for i := 0 to |capabilities|
      invariant forall k | 0 <= k < i :: capabilities[k].Some? && capabilities[k].value in caps
      invariant forall j, k | 0 <= j < k < i :: capabilities[j] != capabilities[k]
      invariant forall c | c in caps :: exists k :: 0 <= k < i && capabilities[k] == Some(c)
      invariant |caps| == i
    {
      if capabilities[i].None? || capabilities[i].value in caps {
        return None;
      }
      caps := caps + {capabilities[i].value};
    }
    r := Some(caps);
  }

  method CompileRule(r: Rule) returns (c: Option<Compiled>)
    ensures c.Some? <==> ValidRule(r)
    ensures c.Some? ==> Compiles(r, c.value)
  {
    hide PolicyName, ValidPattern, ValidSelector, PlainName, Selects, Matches, DistinctCapabilities, Lower;
    if !PolicyName(r.policy) || !ValidPattern(r.path) || |r.capabilities| == 0 || |r.capabilities| > CAPABILITIES
       || r.visibility == Unrecognised {
      return None;
    }
    var caps := CollectCapabilities(r.capabilities);
    if caps.None? {
      return None;
    }
    var matcher: Option<Matcher> := None;
    if r.types.Some? {
      matcher := CompileSelector(r.types.value);
      if matcher.None? {
        return None;
      }
    }
    c := Some(Compiled(r.path, caps.value, matcher, r.visibility != Visible));
  }

  method Compile(version: int, rules: seq<Rule>) returns (r: Option<seq<Compiled>>)
    ensures r.Some? <==> version == 1 && |rules| <= MAX_RULES && forall i | 0 <= i < |rules| :: ValidRule(rules[i])
    ensures r.Some? ==> |r.value| == |rules| && forall i | 0 <= i < |rules| :: Compiles(rules[i], r.value[i])
  {
    hide ValidRule, Compiles;
    if version != 1 || |rules| > MAX_RULES {
      return None;
    }
    var compiled: seq<Compiled> := [];
    for i := 0 to |rules|
      invariant |compiled| == i
      invariant forall k | 0 <= k < i :: ValidRule(rules[k]) && Compiles(rules[k], compiled[k])
    {
      var one := CompileRule(rules[i]);
      if one.None? {
        return None;
      }
      compiled := compiled + [one.value];
    }
    r := Some(compiled);
  }

  // ---------- What one rule means for a question ----------

  predicate Grants(caps: set<Capability>, c: Capability) {
    c in caps || (Write in caps && (c == Create || c == Update))
  }

  predicate RuleGrants(r: Rule, c: Capability) {
    HasCapability(r, c) || (HasCapability(r, Write) && (c == Create || c == Update))
  }

  datatype Question = Question(resource: seq<string>, capability: Capability, entry: Entry)

  /** Questions that are answered at all; everything else is refused. */
  predicate Answerable(q: Question) {
    ValidResource(q.resource) && q.capability != Deny && q.entry != Unsupported
  }

  predicate Applies(r: Rule, q: Question)
    requires r.path != []
  {
    PathMatches(r.path, q.resource) && !(r.types.Some? && q.entry == Directory && HasCapability(r, Deny))
  }

  predicate OfType(r: Rule, q: Question)
    requires q.resource != []
  {
    var name := q.resource[|q.resource| - 1];
    r.types.None? || q.entry == Directory || (PlainName(name) && Selects(r.types.value, Lower(name)))
  }

  /** A typed deny with other capabilities denies only those. */
  predicate Denies(r: Rule, q: Question)
    requires r.path != [] && q.resource != []
  {
    && Applies(r, q) && OfType(r, q) && HasCapability(r, Deny)
    && (r.types.None? || |r.capabilities| == 1 || RuleGrants(r, q.capability))
  }

  predicate Allows(r: Rule, q: Question)
    requires r.path != [] && q.resource != []
  {
    Applies(r, q) && OfType(r, q) && !HasCapability(r, Deny) && RuleGrants(r, q.capability)
  }

  /** A reading this rule takes away: denied, or allowed for other types only. */
  predicate Restricts(r: Rule, q: Question)
    requires r.path != [] && q.resource != []
  {
    && (q.capability == Read || q.capability == List)
    && (|| Denies(r, q)
        || (Applies(r, q) && r.types.Some? && !OfType(r, q) && !HasCapability(r, Deny) && RuleGrants(r, q.capability)))
  }

  predicate Hides(r: Rule, q: Question)
    requires r.path != [] && q.resource != []
  {
    Restricts(r, q) && r.visibility != Visible
  }

  predicate Patterned(rules: seq<Rule>) {
    forall r | r in rules :: r.path != []
  }

  const REFUSED := Decision(false, false, false, false)

  /** Some rule allows and none denies; a restriction shows only if no rule behind it hides it. */
  function Meaning(rules: seq<Rule>, q: Question): Decision
    requires Patterned(rules)
  {
    if !Answerable(q) then REFUSED
    else
      var denied := exists r :: r in rules && Denies(r, q);
      var restricted := exists r :: r in rules && Restricts(r, q);
      Decision((exists r :: r in rules && Allows(r, q)) && !denied, denied,
               restricted && !exists r :: r in rules && Hides(r, q), restricted)
  }

  // ---------- The loop ----------

  /** What the loop computes of a compiled rule is what the rule means. */
  lemma CompiledMeansRule(r: Rule, c: Compiled, q: Question)
    requires Compiles(r, c) && r.path != [] && q.resource != []
    ensures forall cap :: Grants(c.caps, cap) <==> RuleGrants(r, cap)
    ensures Deny in c.caps <==> HasCapability(r, Deny)
    ensures OfType(r, q) <==> c.matcher.None? || q.entry == Directory || Matches(c.matcher.value, q.resource[|q.resource| - 1])
  {
  }

  /** One rule's part in the loop: whether it denies, allows and restricts, and how specific its path is. */
  method JudgeRule(rule: Compiled, ghost source: Rule, q: Question)
    returns (denies: bool, allows: bool, restricts: bool, hides: bool, specificity: int)
    requires Compiles(source, rule) && source.path != [] && q.resource != []
    ensures denies == Denies(source, q) && allows == Allows(source, q) && restricts == Restricts(source, q) && hides == Hides(source, q)
    ensures specificity >= 0
  {
    hide PathMatches, Matches, OfType, Selects, PlainName, HasCapability, RuleGrants, Grants;
    CompiledMeansRule(source, rule, q);
    denies, allows, restricts, hides := false, false, false, false;
    var matchesPath;
    matchesPath, specificity := MatchPath(rule.path, q.resource);
    if !matchesPath {
      return;
    }
    var typed := rule.matcher.Some?;
    if typed && q.entry == Directory && Deny in rule.caps {
      return;
    }
    var matchesType := !typed || q.entry == Directory || Matches(rule.matcher.value, q.resource[|q.resource| - 1]);
    var deny := Deny in rule.caps && (!typed || |rule.caps| == 1 || Grants(rule.caps, q.capability));
    var allow := Deny !in rule.caps && Grants(rule.caps, q.capability);
    if typed && !matchesType && allow && (q.capability == Read || q.capability == List) {
      restricts, hides := true, rule.hidden;
    }
    if !matchesType {
      return;
    }
    if deny {
      denies := true;
      if q.capability == Read || q.capability == List {
        restricts, hides := true, rule.hidden;
      }
      return;
    }
    allows := allow;
  }

  method Evaluate(rules: seq<Compiled>, ghost source: seq<Rule>, q: Question) returns (d: Decision)
    requires Patterned(source) && |rules| == |source| && forall i | 0 <= i < |rules| :: Compiles(source[i], rules[i])
    ensures d == Meaning(source, q)
  {
    hide ValidResource, Denies, Allows, Restricts, Hides, Compiles;
    d := REFUSED;
    if !ValidResource(q.resource) || q.capability == Deny || q.entry == Unsupported {
      return;
    }
    NotEmpty(q.resource);
    var best, found, restricted, anyHidden, denied := -1, false, false, false, false;
    for i := 0 to |rules|
      invariant best >= 0 ==> found
      invariant denied <==> exists k :: 0 <= k < i && Denies(source[k], q)
      invariant found <==> exists k :: 0 <= k < i && Allows(source[k], q)
      invariant restricted <==> exists k :: 0 <= k < i && Restricts(source[k], q)
      invariant anyHidden <==> exists k :: 0 <= k < i && Hides(source[k], q)
    {
      var denies, allows, restricts, hides, specificity := JudgeRule(rules[i], source[i], q);
      denied, restricted, anyHidden := denied || denies, restricted || restricts, anyHidden || hides;
      if allows && specificity >= best {
        best, found := specificity, true;
      }
    }
    d := Decision(found && !denied, denied, restricted && !anyHidden, restricted);
    ByIndex(source, q);
  }

  lemma NotEmpty(resource: seq<string>)
    requires ValidResource(resource)
    ensures resource != []
  {
  }

  lemma ByIndex(rules: seq<Rule>, q: Question)
    requires Patterned(rules) && q.resource != []
    ensures (exists r :: r in rules && Denies(r, q)) <==> exists k :: 0 <= k < |rules| && Denies(rules[k], q)
    ensures (exists r :: r in rules && Allows(r, q)) <==> exists k :: 0 <= k < |rules| && Allows(rules[k], q)
    ensures (exists r :: r in rules && Restricts(r, q)) <==> exists k :: 0 <= k < |rules| && Restricts(rules[k], q)
    ensures (exists r :: r in rules && Hides(r, q)) <==> exists k :: 0 <= k < |rules| && Hides(rules[k], q)
  {
  }

  // ---------- What follows for sets of rules ----------

  /** Order and repetition of rules do not matter. */
  lemma OnlyTheRulesMatter(a: seq<Rule>, b: seq<Rule>, q: Question)
    requires Patterned(a) && Patterned(b) && (forall r :: r in a <==> r in b)
    ensures Meaning(a, q) == Meaning(b, q)
  {
  }

  /** The decision of two lists taken together. */
  function Join(a: Decision, b: Decision): Decision {
    Decision((a.allowed || b.allowed) && !a.denied && !b.denied, a.denied || b.denied,
             (a.restricted || b.restricted) && (a.restricted ==> a.visible) && (b.restricted ==> b.visible),
             a.restricted || b.restricted)
  }

  lemma JoinedRulesJoinDecisions(a: seq<Rule>, b: seq<Rule>, q: Question)
    requires Patterned(a) && Patterned(b)
    ensures Patterned(a + b) && Meaning(a + b, q) == Join(Meaning(a, q), Meaning(b, q))
  {
    hide Denies, Allows, Restricts, Answerable;
    assert forall r :: r in a + b <==> r in a || r in b;
  }

  /** Adding rules never lifts a denial, and takes an allowance away only by denying. */
  lemma DenialsStay(a: seq<Rule>, b: seq<Rule>, q: Question)
    requires Patterned(a) && Patterned(b)
    ensures Patterned(a + b)
    ensures Meaning(a, q).denied ==> Meaning(a + b, q).denied && !Meaning(a + b, q).allowed
    ensures Meaning(a, q).allowed && !Meaning(a + b, q).allowed ==> Meaning(a + b, q).denied
  {
    JoinedRulesJoinDecisions(a, b, q);
  }

  // ---------- The decision, spelled out ----------

  /** A pattern matches segment by segment; only a double star at its end lets the resource go on. */
  lemma PathMatchesExactly(pattern: seq<string>, resource: seq<string>)
    requires pattern != []
    ensures var open := pattern[|pattern| - 1] == "**";
            var fixed := if open then |pattern| - 1 else |pattern|;
            PathMatches(pattern, resource) <==>
              && fixed <= |resource| && (|resource| > fixed ==> open)
              && forall i | 0 <= i < fixed :: pattern[i] in {"*", resource[i]}
  {
  }

  /** A segment adds to the weight of those before it: nothing if it is a star, else a hundred and its length. */
  lemma {:induction false} WeightAdds(parts: seq<string>, part: string)
    ensures Weight(parts + [part]) == Weight(parts) + if part == "*" then 0 else 100 + |part|
    ensures Weight([]) == 0
  {
    var all := parts + [part];
    assert all[..|all| - 1] == parts && all[|all| - 1] == part;
  }

  /** An open pattern is as specific as its fixed segments weigh; a closed one also by how many it has. */
  lemma SpecificityExactly(parts: seq<string>)
    ensures Specificity(parts + ["**"]) == Weight(parts)
    ensures parts != [] && parts[|parts| - 1] != "**" ==> Specificity(parts) == Weight(parts) + |parts|
  {
    assert (parts + ["**"])[..|parts|] == parts;
  }

  /** What one rule does to a question about a file or a directory. */
  lemma RuleExactly(r: Rule, q: Question)
    requires r.path != [] && q.resource != [] && q.entry != Unsupported
    ensures var here := PathMatches(r.path, q.resource);
            var name := q.resource[|q.resource| - 1];
            var deny := Some(Deny) in r.capabilities;
            var grants := Some(q.capability) in r.capabilities || (q.capability in {Create, Update} && Some(Write) in r.capabilities);
            var selected := r.types.Some? && PlainName(name) && Selects(r.types.value, Lower(name));
            var looks := q.capability in {Read, List};
            && (Denies(r, q) <==> here && deny && (r.types.None? || (q.entry == File && selected && (|r.capabilities| == 1 || grants))))
            && (Allows(r, q) <==> here && !deny && grants && (r.types.None? || q.entry == Directory || selected))
            && (Restricts(r, q) <==>
                  looks && (Denies(r, q) || (here && !deny && grants && r.types.Some? && q.entry == File && !selected)))
            && (Hides(r, q) <==> Restricts(r, q) && r.visibility in {Unset, Hidden, Unrecognised})
  {
    hide PathMatches, Selects, PlainName, Lower;
  }

  /** Nothing is decided of a bad resource, the capability deny or an unsupported entry; else some rule has to allow and none to deny. */
  lemma DecisionExactly(rules: seq<Rule>, q: Question)
    requires Patterned(rules)
    ensures var d := Meaning(rules, q);
            if !ValidResource(q.resource) || q.capability == Deny || q.entry == Unsupported then
              d == Decision(false, false, false, false)
            else
              && q.resource != []
              && (d.denied <==> exists r :: r in rules && Denies(r, q))
              && (d.allowed <==> (exists r :: r in rules && Allows(r, q)) && forall r | r in rules :: !Denies(r, q))
              && (d.restricted <==> exists r :: r in rules && Restricts(r, q))
              && (d.visible <==> (exists r :: r in rules && Restricts(r, q)) && forall r | r in rules :: !Hides(r, q))
  {
    hide Denies, Allows, Restricts, Hides;
  }

  /** What a rule has to be to compile. */
  lemma ValidRuleExactly(r: Rule)
    ensures ValidRule(r) <==>
              && 0 < |r.policy| <= 128 && (forall c | c in r.policy :: c !in "/\\\0")
              && ValidPattern(r.path)
              && 0 < |r.capabilities| <= 9 && (forall c | c in r.capabilities :: c.Some?)
              && (forall i, j | 0 <= i < j < |r.capabilities| :: r.capabilities[i] != r.capabilities[j])
              && r.visibility in {Unset, Hidden, Visible}
              && (r.types.Some? ==> ValidSelector(r.types.value))
  {
    hide ValidPattern, ValidSelector;
  }

  /** A pattern's segments are a star, a double star at the end only, or plain text without special characters. */
  lemma ValidPatternExactly(p: seq<string>)
    ensures ValidPattern(p) <==>
              && p != []
              && forall i | 0 <= i < |p| ::
                   || p[i] == "*"
                   || (p[i] == "**" && i == |p| - 1)
                   || (p[i] !in {"", ".", ".."} && forall c | c in p[i] :: ' ' <= c && c != '\U{7f}' && c !in "\\/?#&=%*")
  {
    forall i | 0 <= i < |p|
      ensures PatternPart(p[i], i == |p| - 1) <==>
                || p[i] == "*"
                || (p[i] == "**" && i == |p| - 1)
                || (p[i] !in {"", ".", ".."} && forall c | c in p[i] :: ' ' <= c && c != '\U{7f}' && c !in "\\/?#&=%*")
    {
      PatternPartExactly(p[i], i == |p| - 1);
    }
    hide PatternPart;
  }

  lemma PatternPartExactly(part: string, last: bool)
    ensures PatternPart(part, last) <==>
              || part == "*"
              || (part == "**" && last)
              || (part !in {"", ".", ".."} && forall c | c in part :: ' ' <= c && c != '\U{7f}' && c !in "\\/?#&=%*")
  {
    assert "**"[0] == '*' && '*' in "**";
    assert (forall i | 0 <= i < |part| :: PatternChar(part[i])) <==> forall c | c in part :: PatternChar(c);
  }

  predicate PlainSegment(part: string) {
    part !in {"", ".", "..", "*", "**"} && forall c | c in part :: ' ' <= c && c != '\U{7f}' && c !in "\\/"
  }

  /** A resource's segments are plain text, none of them a star or a walk. */
  lemma ValidResourceExactly(p: seq<string>)
    ensures ValidResource(p) <==> p != [] && forall i | 0 <= i < |p| :: PlainSegment(p[i])
  {
    forall i | 0 <= i < |p|
      ensures (p[i] !in {"", ".", "..", "*", "**"} && forall k | 0 <= k < |p[i]| :: ResourceChar(p[i][k])) <==> PlainSegment(p[i])
    {
      SegmentExactly(p[i]);
    }
    hide PlainSegment;
  }

  lemma SegmentExactly(part: string)
    ensures (part !in {"", ".", "..", "*", "**"} && forall k | 0 <= k < |part| :: ResourceChar(part[k])) <==> PlainSegment(part)
  {
    assert (forall k | 0 <= k < |part| :: ResourceChar(part[k])) <==> forall c | c in part :: ResourceChar(c);
  }
}
