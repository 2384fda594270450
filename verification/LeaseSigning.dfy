/** Signing a lease: every capability the job needs is checked, then the earliest limit is its end. */
module LeaseSigning {
  import opened Wrappers
  import opened AccessContext
  import JobLease

  datatype Requirement = Requirement(path: seq<string>, capability: Capability)

  /** A capability on a path whose kind is not known is held if either kind allows it. */
  predicate Met(rules: seq<Rule>, need: Requirement, beyond: set<seq<string>>)
    requires Patterned(rules)
  {
    && need.path != [] && need.path !in beyond
    && (|| Meaning(rules, Question(need.path, need.capability, Directory)).allowed
        || Meaning(rules, Question(need.path, need.capability, File)).allowed)
  }

  predicate AllMet(rules: seq<Rule>, required: seq<Requirement>, beyond: set<seq<string>>)
    requires Patterned(rules)
  {
    forall i | 0 <= i < |required| :: Met(rules, required[i], beyond)
  }

  method MeetsAll(rules: seq<Compiled>, ghost source: seq<Rule>, required: seq<Requirement>, beyond: set<seq<string>>)
    returns (met: bool)
    requires Patterned(source) && |rules| == |source| && forall i | 0 <= i < |rules| :: Compiles(source[i], rules[i])
    ensures met <==> AllMet(source, required, beyond)
  {
    hide Meaning, Compiles;
    for i := 0 to |required|
      invariant forall k | 0 <= k < i :: Met(source, required[k], beyond)
    {
      if required[i].path == [] || required[i].path in beyond {
        return false;
      }
      var directory := Evaluate(rules, source, Question(required[i].path, required[i].capability, Directory));
      var file := Evaluate(rules, source, Question(required[i].path, required[i].capability, File));
      if !directory.allowed && !file.allowed {
        return false;
      }
    }
    return true;
  }

  /** `beyond` are paths denied by rules the context cannot express; `context` names the context signed. */
  method SignLease(rules: seq<Compiled>, ghost source: seq<Rule>, context: nat, required: seq<Requirement>, beyond: set<seq<string>>,
                   credential: Option<int>, temporary: Option<int>, deadline: Option<int>, revision: nat, now: int)
    returns (lease: Option<JobLease.Lease>)
    requires Patterned(source) && |rules| == |source| && forall i | 0 <= i < |rules| :: Compiles(source[i], rules[i])
    ensures lease == JobLease.Issue(
                       JobLease.Standing(context, AllMet(source, required, beyond), credential, temporary, deadline), revision, now)
  {
    hide AllMet, Compiles;
    if revision == 0 {
      return None;
    }
    var met := MeetsAll(rules, source, required, beyond);
    if !met {
      return None;
    }
    var expires := now + JobLease.MAX_LIFETIME * JobLease.SECOND;
    var limits := [credential, temporary];
    for i := 0 to |limits|
      invariant expires == if i == 0 then now + JobLease.MAX_LIFETIME * JobLease.SECOND
                           else if i == 1 then JobLease.Earlier(now + JobLease.MAX_LIFETIME * JobLease.SECOND, credential)
                           else JobLease.Earlier(JobLease.Earlier(now + JobLease.MAX_LIFETIME * JobLease.SECOND, credential), temporary)
    {
      if limits[i].Some? && limits[i].value < expires {
        expires := limits[i].value;
      }
    }
    if deadline.Some? && deadline.value < expires {
      expires := deadline.value;
    }
    var issuedAt, expiresAt := JobLease.Unix(now), JobLease.Unix(expires);
    if issuedAt <= 0 || expiresAt <= issuedAt || expiresAt - issuedAt > JobLease.MAX_LIFETIME {
      return None;
    }
    return Some(JobLease.Lease(revision, context, issuedAt, expiresAt));
  }

  /** A signed lease ends by every limit, and by no more than it must: at the last whole second before the earliest. */
  lemma SignedEnd(a: JobLease.Standing, revision: nat, now: int)
    requires JobLease.Issue(a, revision, now).Some?
    ensures var end := JobLease.Expiry(JobLease.Issue(a, revision, now).value);
            && end <= now + JobLease.MAX_LIFETIME * JobLease.SECOND
            && (forall limit | limit in [a.credential, a.temporary, a.deadline] && limit.Some? :: end <= limit.value)
            && (|| now + JobLease.MAX_LIFETIME * JobLease.SECOND < end + JobLease.SECOND
                || exists limit :: limit in [a.credential, a.temporary, a.deadline] && limit.Some? && limit.value < end + JobLease.SECOND)
  {
    var ends := JobLease.Ends(a, now);
    var end := JobLease.Expiry(JobLease.Issue(a, revision, now).value);
    assert end <= ends < end + JobLease.SECOND;
    assert ends == now + JobLease.MAX_LIFETIME * JobLease.SECOND || Some(ends) in [a.credential, a.temporary, a.deadline];
  }

  /** A requirement is met exactly if its path is named, not denied beyond the context, and some kind of entry is allowed there. */
  lemma MetExactly(rules: seq<Rule>, need: Requirement, beyond: set<seq<string>>)
    requires Patterned(rules)
    ensures Met(rules, need, beyond) <==>
              && |need.path| > 0 && need.path !in beyond
              && exists entry :: entry in {File, Directory} && Meaning(rules, Question(need.path, need.capability, entry)).allowed
  {
    hide Meaning;
  }
}
