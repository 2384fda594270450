/**
One renewal attempt in the order the Control Tower makes its calls. Whatever the
calls do, an attempt is a run of the protocol; one whose calls are all answered
ends with both sides on the same live lease.
*/
module JobLeaseRenewal {
  import opened Wrappers
  import opened JobLease
  import opened JobLeaseRuns

  datatype JobState =
    | Queued | Running | WaitingValidation | WaitingPeer | WaitingMount | Paused | Interrupted
    | Completed | CompletedWithWarnings | Failed | Canceled
    | Pausing | Canceling

  /** States that never run again: their lease stops being renewed. */
  predicate Final(s: JobState) {
    s.Completed? || s.CompletedWithWarnings? || s.Failed? || s.Canceled?
  }

  predicate Renewable(s: JobState) {
    || s.Queued? || s.Running? || s.WaitingValidation? || s.WaitingPeer? || s.WaitingMount? || s.Paused? || s.Interrupted?
  }

  datatype Job = Missing | Unreachable | InState(state: JobState)

  /**
  How the calls of one stretch go: whether status and job can be read, what else
  reaches the node in between, whether a delivery arrives and its answer comes
  back, and how long the two halves take.
  */
  datatype Calls = Calls(status: bool, late: seq<Lease>, job: bool, arrives: bool, answers: bool, first: nat, second: nat)

  predicate AllAnswered(c: Calls) {
    c.status && c.job && c.arrives && c.answers && c.late == []
  }

  // ---------- The stretches of an attempt ----------

  function Arrived(s: State, late: seq<Lease>): State {
    if late == [] then s
    else
      var last := |late| - 1;
      var before := Arrived(s, late[..last]);
      if late[last] in before.sent then Next(before, Arrive(late[last])) else before
  }

  function Reconciled(s: State, c: Calls): (Option<Reconciliation>, State) {
    if !c.status then (None, s)
    else
      var later := Arrived(s, c.late).(clock := s.clock + c.first);
      match Reconcile(later.link, s.held, later.standing.credential, later.clock)
      case Some((outcome, link)) => (Some(outcome), later.(link := link))
      case None => (None, later)
  }

  /** The envelope goes out, and the node's answer, if one comes in time, confirms it. */
  function Posted(s: State, l: Lease, c: Calls): (Option<Reconciliation>, State) {
    var out := s.(sent := s.sent + {l});
    var after := (if c.arrives then Next(out, Arrive(l)) else out).(clock := s.clock + c.second);
    if c.arrives && c.answers && Receive(out.held, l, out.clock).Some? && after.clock < Expiry(l) then
      match Confirm(after.link, l, after.standing.credential, after.clock)
      case Some(link) => (Some(Confirmed), after.(link := link))
      case None => (None, after)
    else
      (None, after)
  }

  function Delivered(s: State, c: Calls): (Option<Reconciliation>, State) {
    var (r, settled) := Reconciled(s, c);
    if r != Some(PendingDelivery) then (r, settled)
    else if settled.link.pending.None? || !c.job || !MaySend(settled)
            || Stage(settled.link, settled.link.pending.value, settled.standing.credential, settled.clock).None? then (None, settled)
    else Posted(settled, settled.link.pending.value, c)
  }

  function Staged(s: State, c: Calls): (bool, State) {
    var (r, settled) := Reconciled(s, c);
    if r.None? || r == Some(PendingDelivery) || settled.link.pending.Some?
       || Revision(settled.link.confirmed) >= MAX_REVISION || !c.job then
      (false, settled)
    else
      match Issue(settled.standing, Revision(settled.link.confirmed) + 1, settled.clock)
      case None => (false, settled)
      case Some(l) =>
        match Stage(settled.link, l, settled.standing.credential, settled.clock)
        case Some(link) => (true, settled.(link := link))
        case None => (false, settled)
  }

  datatype Attempt = Attempt(finished: bool, ok: bool, state: State)

  /** `c` are the calls of the first delivery, the staging and the second delivery. */
  function Renewed(s: State, job: Job, c: (Calls, Calls, Calls)): Attempt {
    if job.Missing? || (job.InState? && Final(job.state)) then Attempt(true, true, s)
    else if job.Unreachable? then Attempt(false, false, s)
    else if !Renewable(job.state) then Attempt(false, true, s)
    else
      var (r, first) := Delivered(s, c.0);
      if r.None? then Attempt(false, false, first)
      else if r == Some(Confirmed) then Attempt(false, true, first)
      else
        var (staged, second) := Staged(first, c.1);
        if !staged then Attempt(false, false, second)
        else
          var (again, third) := Delivered(second, c.2);
          Attempt(false, again == Some(Confirmed), third)
  }

  class Renewal {
    var link: Link
    var held: Option<Lease>
    var sent: set<Lease>
    var answered: set<Lease>
    var standing: Standing
    var clock: int

    constructor (standing: Standing, clock: int)
      ensures Now() == Start(standing, clock)
    {
      this.link, held, sent, answered := Link(None, None), None, {}, {};
      this.standing, this.clock := standing, clock;
    }

    function Now(): State
      reads this
    {
      State(link, held, sent, answered, None, standing, clock)
    }

    method Arrivals(late: seq<Lease>)
      modifies `held, `answered
      ensures Now() == Arrived(old(Now()), late)
    {
      for i := 0 to |late|
        invariant Now() == Arrived(old(Now()), late[..i])
      {
        if late[i] in sent {
          var taken := Receive(held, late[i], clock);
          if taken.Some? {
            held, answered := taken.value, answered + {late[i]};
          }
        }
        assert late[..i + 1][..i] == late[..i];
      }
      assert late[..|late|] == late;
    }

    method ReconcileLink(c: Calls) returns (r: Option<Reconciliation>)
      modifies this
      ensures (r, Now()) == Reconciled(old(Now()), c)
    {
      if !c.status {
        return None;
      }
      var status := held;
      Arrivals(c.late);
      clock := clock + c.first;
      if link.pending.Some? && Expiry(link.pending.value) <= clock {
        var resolved := ResolveExpired(link, status, clock);
        if resolved.None? {
          return None;
        }
        link := resolved.value;
        return Some(ExpiredResolved);
      }
      if link.pending.Some? && status == link.pending {
        var confirmed := Confirm(link, link.pending.value, standing.credential, clock);
        if confirmed.None? {
          return None;
        }
        link := confirmed.value;
        return Some(Confirmed);
      }
      if status != link.confirmed {
        return None;
      }
      return Some(if link.pending.Some? then PendingDelivery else Synchronized);
    }

    method DeliverPending(c: Calls) returns (r: Option<Reconciliation>)
      modifies this
      ensures (r, Now()) == Delivered(old(Now()), c)
    {
      r := ReconcileLink(c);
      if r != Some(PendingDelivery) {
        return;
      }
      if link.pending.None? || !c.job {
        return None;
      }
      var lease := link.pending.value;
      var again := Issue(standing, lease.revision, clock);
      if again.None? || again.value.expiresAt < lease.expiresAt || again.value.context != lease.context {
        return None;
      }
      var staged := Stage(link, lease, standing.credential, clock);
      if staged.None? || Expiry(lease) <= clock {
        return None;
      }
      sent := sent + {lease};
      var taken := None;
      if c.arrives {
        taken := Receive(held, lease, clock);
        if taken.Some? {
          held, answered := taken.value, answered + {lease};
        }
      }
      clock := clock + c.second;
      if taken.None? || !c.answers || Expiry(lease) <= clock {
        return None;
      }
      var confirmed := Confirm(link, lease, standing.credential, clock);
      if confirmed.None? {
        return None;
      }
      link := confirmed.value;
      return Some(Confirmed);
    }

    method StageLease(c: Calls) returns (staged: bool)
      modifies this
      ensures (staged, Now()) == Staged(old(Now()), c)
    {
      var r := ReconcileLink(c);
      if r.None? || r == Some(PendingDelivery) || link.pending.Some? || Revision(link.confirmed) >= MAX_REVISION || !c.job {
        return false;
      }
      var lease := Issue(standing, Revision(link.confirmed) + 1, clock);
      if lease.None? {
        return false;
      }
      var recorded := Stage(link, lease.value, standing.credential, clock);
      if recorded.None? {
        return false;
      }
      link := recorded.value;
      return true;
    }

    method Renew(job: Job, c: (Calls, Calls, Calls)) returns (finished: bool, ok: bool)
      modifies this
      ensures Attempt(finished, ok, Now()) == Renewed(old(Now()), job, c)
    {
      if job.Missing? || (job.InState? && Final(job.state)) {
        return true, true;
      }
      if job.Unreachable? {
        return false, false;
      }
      if !Renewable(job.state) {
        return false, true;
      }
      var r := DeliverPending(c.0);
      if r.None? {
        return false, false;
      }
      if r == Some(Confirmed) {
        return false, true;
      }
      var staged := StageLease(c.1);
      if !staged {
        return false, false;
      }
      r := DeliverPending(c.2);
      return false, r == Some(Confirmed);
    }
  }

  // ---------- An attempt is a run ----------

  lemma {:induction false} ArrivedRuns(s: State, late: seq<Lease>) returns (steps: seq<Step>)
    ensures Steps(s, steps) && Run(s, steps) == Arrived(s, late)
    decreases |late|
  {
    if late == [] {
      steps := [];
    } else {
      var last := |late| - 1;
      steps := ArrivedRuns(s, late[..last]);
      var before := Arrived(s, late[..last]);
      if late[last] in before.sent {
        RunOne(before, Arrive(late[last]));
        RunJoins(s, steps, [Arrive(late[last])]);
        steps := steps + [Arrive(late[last])];
      }
    }
  }

  /** A status in hand does not matter to what arrives. */
  lemma {:induction false} ArrivedUnseen(s: State, late: seq<Lease>, seen: Option<Seen>)
    ensures Arrived(s.(seen := seen), late) == Arrived(s, late).(seen := seen)
    decreases |late|
  {
    if late != [] {
      ArrivedUnseen(s, late[..|late| - 1], seen);
    }
  }

  lemma {:induction false} ArrivedKeeps(s: State, late: seq<Lease>)
    ensures var after := Arrived(s, late);
            after == s.(held := after.held, answered := after.answered)
    decreases |late|
  {
    if late != [] {
      ArrivedKeeps(s, late[..|late| - 1]);
    }
  }

  lemma Extend(s: State, steps: seq<Step>, step: Step)
    requires Steps(s, steps) && Enabled(Run(s, steps), step)
    ensures Steps(s, steps + [step]) && Run(s, steps + [step]) == Next(Run(s, steps), step)
  {
    RunOne(Run(s, steps), step);
    RunJoins(s, steps, [step]);
  }

  lemma ReconciledRuns(s: State, c: Calls) returns (steps: seq<Step>)
    requires s.seen.None?
    ensures Steps(s, steps) && Run(s, steps) == Reconciled(s, c).1 && Reconciled(s, c).1.seen.None?
  {
    hide Steps, Run, Reconcile;
    NoSteps(s);
    steps := [];
    if c.status {
      Extend(s, [], Observe);
      var seen := Next(s, Observe);
      var meanwhile := ArrivedRuns(seen, c.late);
      RunJoins(s, [] + [Observe], meanwhile);
      ArrivedUnseen(s, c.late, seen.seen);
      ArrivedKeeps(s, c.late);
      steps := [] + [Observe] + meanwhile;
      Extend(s, steps, Wait(s.clock + c.first));
      steps := steps + [Wait(s.clock + c.first)];
      Extend(s, steps, Act);
      steps := steps + [Act];
    }
  }

  lemma NoSteps(s: State)
    ensures Steps(s, []) && Run(s, []) == s
  {
  }

  lemma PostedRuns(s: State, c: Calls) returns (steps: seq<Step>)
    requires s.seen.None? && MaySend(s)
    ensures Steps(s, steps) && Run(s, steps) == Posted(s, s.link.pending.value, c).1 && Posted(s, s.link.pending.value, c).1.seen.None?
  {
    hide Steps, Run, Confirm, Receive;
    var l := s.link.pending.value;
    NoSteps(s);
    Extend(s, [], Send);
    steps := [] + [Send];
    if c.arrives {
      Extend(s, steps, Arrive(l));
      steps := steps + [Arrive(l)];
    }
    Extend(s, steps, Wait(s.clock + c.second));
    steps := steps + [Wait(s.clock + c.second)];
    if c.arrives && c.answers && Receive(s.held, l, s.clock).Some? && s.clock + c.second < Expiry(l) {
      Extend(s, steps, TakeAnswer(l));
      steps := steps + [TakeAnswer(l)];
    }
  }

  lemma DeliveredRuns(s: State, c: Calls) returns (steps: seq<Step>)
    requires s.seen.None?
    ensures Steps(s, steps) && Run(s, steps) == Delivered(s, c).1 && Delivered(s, c).1.seen.None?
  {
    hide Steps, Run, Reconciled, MaySend, Posted, Stage;
    steps := ReconciledRuns(s, c);
    var (r, settled) := Reconciled(s, c);
    if Delivered(s, c) != (None, settled) && r == Some(PendingDelivery) {
      var post := PostedRuns(settled, c);
      RunJoins(s, steps, post);
      steps := steps + post;
    }
  }

  lemma StagedRuns(s: State, c: Calls) returns (steps: seq<Step>)
    requires s.seen.None?
    ensures Steps(s, steps) && Run(s, steps) == Staged(s, c).1 && Staged(s, c).1.seen.None?
  {
    hide Steps, Run, Reconciled, Stage, Issue;
    steps := ReconciledRuns(s, c);
    if Staged(s, c).0 {
      Extend(s, steps, StageNext);
      steps := steps + [StageNext];
    }
  }

  /** Whatever its calls do, an attempt only ever takes steps of the protocol. */
  lemma RenewedRuns(s: State, job: Job, c: (Calls, Calls, Calls)) returns (steps: seq<Step>)
    requires s.seen.None?
    ensures Steps(s, steps) && Run(s, steps) == Renewed(s, job, c).state
  {
    hide Steps, Run, Delivered, Staged;
    NoSteps(s);
    steps := [];
    if Renewed(s, job, c).state != s {
      steps := DeliveredRuns(s, c.0);
      var (r, first) := Delivered(s, c.0);
      if Renewed(s, job, c).state != first {
        var stage := StagedRuns(first, c.1);
        RunJoins(s, steps, stage);
        steps := steps + stage;
        var (staged, second) := Staged(first, c.1);
        if staged {
          var deliver := DeliveredRuns(second, c.2);
          RunJoins(s, steps, deliver);
          steps := steps + deliver;
        }
      }
    }
  }

  // ---------- An attempt whose calls are all answered ----------

  /** No limit of the actor's standing falls inside the attempt, which fits in one lease. */
  predicate Stands(a: Standing, start: int, end: int) {
    && a.covers
    && SECOND <= start <= end <= start + (MAX_LIFETIME - 1) * SECOND
    && (forall limit | limit in [a.credential, a.temporary, a.deadline] :: limit.Some? ==> limit.value >= end + SECOND)
  }

  /** A lease gives the access there is now and ends by every limit there is now, whenever and under whatever it was signed. */
  predicate Suits(l: Lease, a: Standing) {
    && l.context == a.context
    && (forall limit | limit in [a.credential, a.temporary, a.deadline] && limit.Some? :: l.expiresAt <= Unix(limit.value))
  }

  /** A pending envelope still live suits the standing and outlives the attempt. */
  predicate PendingStands(s: State, end: int) {
    s.link.pending.Some? && Live(s.link.pending.value, s.clock) ==>
      Live(s.link.pending.value, end) && Suits(s.link.pending.value, s.standing)
  }

  /** Both sides hold the same live lease and nothing is pending. */
  predicate Agreed(s: State) {
    s.link.pending.None? && s.held.Some? && s.held == s.link.confirmed && Live(s.held.value, s.clock)
  }

  lemma IssuedOutlives(a: Standing, revision: nat, now: int, start: int, end: int)
    requires revision != 0 && Stands(a, start, end) && start <= now <= end
    ensures Issue(a, revision, now).Some? && end < Expiry(Issue(a, revision, now).value)
  {
    assert a.credential in [a.credential, a.temporary, a.deadline];
    assert a.temporary in [a.credential, a.temporary, a.deadline];
    assert a.deadline in [a.credential, a.temporary, a.deadline];
    assert end + SECOND <= Ends(a, now) <= now + MAX_LIFETIME * SECOND;
    assert Unix(now + MAX_LIFETIME * SECOND) == Unix(now) + MAX_LIFETIME;
    assert Unix(end + SECOND) == Unix(end) + 1;
  }

  /** An end no later than every limit is no later than the end of a lease signed now. */
  lemma EndsNoEarlier(l: Lease, a: Standing, now: int)
    requires l.expiresAt <= Unix(now) + MAX_LIFETIME
    ensures l.expiresAt <= Unix(Ends(a, now)) <==>
              forall limit | limit in [a.credential, a.temporary, a.deadline] && limit.Some? :: l.expiresAt <= Unix(limit.value)
  {
    var limits := [a.credential, a.temporary, a.deadline];
    assert Unix(now + MAX_LIFETIME * SECOND) == Unix(now) + MAX_LIFETIME;
    assert a.credential in limits && a.temporary in limits && a.deadline in limits;
    if l.expiresAt <= Unix(Ends(a, now)) {
      forall limit | limit in limits && limit.Some?
        ensures l.expiresAt <= Unix(limit.value)
      {
        assert Ends(a, now) <= limit.value;
      }
    } else {
      var ends := Ends(a, now);
      assert ends == now + MAX_LIFETIME * SECOND || Some(ends) in limits;
    }
  }

  /**
  At any instant of an attempt a live pending envelope may go out if and only if it
  suits the standing. One left by an earlier attempt does: its deadline was earlier.
  */
  lemma SendableExactly(s: State, now: int, start: int, end: int)
    requires Inv(s) && Stands(s.standing, start, end) && s.clock <= now && start <= now <= end
    requires s.link.pending.Some? && Live(s.link.pending.value, now)
    ensures MaySend(s.(clock := now)) <==> Suits(s.link.pending.value, s.standing)
  {
    var l := s.link.pending.value;
    assert Out(s, l);
    assert Unix(s.clock) <= Unix(now);
    IssuedOutlives(s.standing, l.revision, now, start, end);
    EndsNoEarlier(l, s.standing, now);
  }

  /** A lease signed in an attempt with an earlier deadline, or none left to it now, suits the standing of a later one. */
  lemma EarlierAttemptSuits(a: Standing, earlier: Option<int>, revision: nat, t: int)
    requires Issue(a.(deadline := earlier), revision, t).Some?
    requires a.deadline.Some? ==> earlier.Some? && earlier.value <= a.deadline.value
    ensures Suits(Issue(a.(deadline := earlier), revision, t).value, a)
  {
    var signed := a.(deadline := earlier);
    var l := Issue(signed, revision, t).value;
    EndsNoEarlier(l, signed, t);
    assert signed.credential in [signed.credential, signed.temporary, signed.deadline];
    assert signed.temporary in [signed.credential, signed.temporary, signed.deadline];
    assert signed.deadline in [signed.credential, signed.temporary, signed.deadline];
  }

  /** Then it can also be recorded again, taken and confirmed. */
  lemma PendingUsable(s: State, now: int, start: int, end: int)
    requires Inv(s) && PendingStands(s, end) && Stands(s.standing, start, end) && start <= s.clock <= now <= end
    requires s.link.pending.Some? && Live(s.link.pending.value, s.clock)
    ensures MaySend(s.(clock := now)) && Live(s.link.pending.value, now)
    ensures Stage(s.link, s.link.pending.value, s.standing.credential, now) == Some(s.link)
    ensures Confirm(s.link, s.link.pending.value, s.standing.credential, now) == Some(Link(s.link.pending, None))
    ensures Verified(s.link.pending.value, Revision(s.link.confirmed) + 1, now)
  {
    hide Issue, MaySend, Stands;
    var l := s.link.pending.value;
    assert Out(s, l);
    assert Unix(s.clock) <= Unix(now);
    SendableExactly(s, now, start, end);
    VerifiedUntilExpiry(l, now);
    assert s.standing.credential in [s.standing.credential, s.standing.temporary, s.standing.deadline];
  }

  /** A first delivery confirms a live pending envelope, or settles an expired or absent one. */
  lemma DeliveryAnswered(s: State, c: Calls, start: int, end: int)
    requires Inv(s) && s.seen.None? && AllAnswered(c) && PendingStands(s, end) && Stands(s.standing, start, end)
    requires start <= s.clock && s.clock + c.first + c.second <= end
    ensures var (r, after) := Delivered(s, c);
            && after.seen.None? && after.standing == s.standing && s.clock <= after.clock <= s.clock + c.first + c.second
            && (if s.link.pending.Some? && Live(s.link.pending.value, s.clock) then
                  r == Some(Confirmed) && Agreed(after) && after.held == s.link.pending
                else
                  (r == Some(Synchronized) || r == Some(ExpiredResolved)) && after.link == Link(s.held, None) && after.held == s.held)
  {
    hide Issue, Stage, MaySend, Stands, Suits;
    var t := s.clock + c.first;
    assert Arrived(s, c.late) == s;
    if s.link.pending.Some? && Live(s.link.pending.value, s.clock) {
      PendingUsable(s, t, start, end);
      PendingUsable(s, t + c.second, start, end);
    }
  }

  lemma StagingAnswered(s: State, c: Calls, start: int, end: int)
    requires s.seen.None? && AllAnswered(c) && Stands(s.standing, start, end) && start <= s.clock && s.clock + c.first <= end
    requires s.link.pending.None? && s.held == s.link.confirmed && Revision(s.link.confirmed) < MAX_REVISION
    ensures var (staged, after) := Staged(s, c);
            && staged && after == s.(clock := s.clock + c.first, link := after.link) && PendingStands(after, end)
            && after.link.pending.Some? && Live(after.link.pending.value, after.clock)
  {
    hide Issue, Stage, Stands, Suits;
    var t := s.clock + c.first;
    assert Arrived(s, c.late) == s;
    IssuedStages(s.link, s.standing, t, start, end);
  }

  /** A lease just issued for the next revision can be recorded. */
  lemma IssuedStages(link: Link, a: Standing, now: int, start: int, end: int)
    requires Stands(a, start, end) && start <= now <= end && link.pending.None? && Revision(link.confirmed) < MAX_REVISION
    ensures var issued := Issue(a, Revision(link.confirmed) + 1, now);
            && issued.Some? && end < Expiry(issued.value) && issued.value.revision == Revision(link.confirmed) + 1
            && Stage(link, issued.value, a.credential, now) == Some(Link(link.confirmed, issued))
            && Suits(issued.value, a)
  {
    IssuedOutlives(a, Revision(link.confirmed) + 1, now, start, end);
    assert a.credential in [a.credential, a.temporary, a.deadline];
    var l := Issue(a, Revision(link.confirmed) + 1, now).value;
    assert Expiry(l) <= Ends(a, now);
    EndsNoEarlier(l, a, now);
  }

  function Took(c: Calls): nat {
    c.first + c.second
  }

  /**
  From any state a run can be in, an attempt whose calls are all answered and
  whose actor keeps their standing ends with both sides on one live lease.
  */
  lemma RenewalAgrees(s: State, state: JobState, c: (Calls, Calls, Calls))
    requires Inv(s) && s.seen.None? && Renewable(state) && Revision(s.held) < MAX_REVISION
    requires AllAnswered(c.0) && AllAnswered(c.1) && AllAnswered(c.2)
    requires var end := s.clock + Took(c.0) + Took(c.1) + Took(c.2);
             Stands(s.standing, s.clock, end) && PendingStands(s, end)
    ensures var done := Renewed(s, InState(state), c);
            done.ok && !done.finished && Agreed(done.state)
  {
    hide Delivered, Staged, Inv, PendingStands, Stands;
    var end := s.clock + Took(c.0) + Took(c.1) + Took(c.2);
    DeliveryAnswered(s, c.0, s.clock, end);
    var (r, first) := Delivered(s, c.0);
    if r != Some(Confirmed) {
      StagingAnswered(first, c.1, s.clock, end);
      var (_, second) := Staged(first, c.1);
      StagedInv(s, first, c.0, c.1);
      DeliveryAnswered(second, c.2, s.clock, end);
    }
  }

  /** The state between the two deliveries is one a run can be in. */
  lemma StagedInv(s: State, first: State, c: Calls, d: Calls)
    requires Inv(s) && s.seen.None? && AllAnswered(c) && AllAnswered(d)
    requires Delivered(s, c).0 == Some(Synchronized) || Delivered(s, c).0 == Some(ExpiredResolved)
    requires first == Delivered(s, c).1 && Staged(first, d).0
    ensures Inv(Staged(first, d).1) && Staged(first, d).1.seen.None?
  {
    hide Inv, Reconcile, Stage, Issue;
    QuietKeeps(s, c);
    QuietKeeps(first, d);
    var settled := Reconciled(first, d).1;
    NextKeeps(settled, StageNext);
  }

  /** With nothing arriving in between, the status is right when it is acted on. */
  lemma QuietKeeps(s: State, c: Calls)
    requires Inv(s) && s.seen.None? && AllAnswered(c)
    ensures Inv(Reconciled(s, c).1) && Reconciled(s, c).1.seen.None?
  {
    hide Inv, Reconcile;
    assert Arrived(s, c.late) == s;
    NextKeeps(s, Wait(s.clock + c.first));
    var waited := s.(clock := s.clock + c.first);
    NextKeeps(waited, Observe);
    NextKeeps(Next(waited, Observe), Act);
  }

  // ---------- What an attempt answers ----------

  /** What is pending is the next revision, and nothing sent is of a later one, unless its time is over. */
  ghost predicate NoneAhead(s: State) {
    && (s.link.pending.Some? ==> s.link.pending.value.revision == Revision(s.link.confirmed) + 1)
    && (forall l | l in s.sent && Live(l, s.clock) :: l.revision <= Revision(s.link.confirmed) + 1)
  }

  lemma InvNoneAhead(s: State)
    requires Inv(s)
    ensures NoneAhead(s)
  {
  }

  lemma {:induction false} ArrivedStays(s: State, late: seq<Lease>)
    requires NoneAhead(s) && Revision(s.held) == Revision(s.link.confirmed) + 1
    ensures Arrived(s, late).held == s.held
    decreases |late|
  {
    if late != [] {
      var last := |late| - 1;
      ArrivedStays(s, late[..last]);
      ArrivedKeeps(s, late[..last]);
      ReceivedExactly(s.held, late[last], s.clock);
    }
  }

  lemma ReconciledTrue(s: State, c: Calls)
    requires NoneAhead(s)
    ensures NoneAhead(Reconciled(s, c).1)
    ensures Reconciled(s, c).0 == Some(Confirmed) ==> Agreed(Reconciled(s, c).1)
    ensures Reconciled(s, c).0 == Some(PendingDelivery) ==> Reconciled(s, c).1.link == s.link && s.link.pending.Some?
  {
    if c.status {
      ArrivedKeeps(s, c.late);
      var later := Arrived(s, c.late).(clock := s.clock + c.first);
      ReconciledExactly(s.link, s.held, s.standing.credential, later.clock);
      if s.link.pending.Some? {
        ConfirmedExactly(s.link, s.link.pending.value, s.standing.credential, later.clock);
      }
      if Reconciled(s, c).0 == Some(Confirmed) {
        ArrivedStays(s, c.late);
      }
    }
  }

  lemma PostedTrue(s: State, l: Lease, c: Calls)
    requires NoneAhead(s) && s.link.pending == Some(l) && Stage(s.link, l, s.standing.credential, s.clock).Some?
    ensures NoneAhead(Posted(s, l, c).1)
    ensures Posted(s, l, c).0.Some? ==> Posted(s, l, c).0 == Some(Confirmed) && Agreed(Posted(s, l, c).1)
  {
    StagedExactly(s.link, l, s.standing.credential, s.clock);
    ReceivedExactly(s.held, l, s.clock);
    ConfirmedExactly(s.link, l, s.standing.credential, s.clock + c.second);
  }

  lemma DeliveredTrue(s: State, c: Calls)
    requires NoneAhead(s)
    ensures NoneAhead(Delivered(s, c).1)
    ensures Delivered(s, c).0 == Some(Confirmed) ==> Agreed(Delivered(s, c).1)
  {
    hide NoneAhead, Reconciled, Posted, Agreed, MaySend, Stage;
    ReconciledTrue(s, c);
    var (r, settled) := Reconciled(s, c);
    if Delivered(s, c) != (r, settled) && Delivered(s, c) != (None, settled) {
      PostedTrue(settled, settled.link.pending.value, c);
    }
  }

  lemma StagedTrue(s: State, c: Calls)
    requires NoneAhead(s)
    ensures NoneAhead(Staged(s, c).1)
  {
    hide Reconciled, Issue;
    ReconciledTrue(s, c);
  }

  /**
  What an attempt answers, for every job and whatever its calls do: a link is finished
  with exactly if the job is gone or will not run again; a success for a job that may
  run means both sides have the same live lease and nothing is pending.
  */
  lemma AnswerIsTrue(s: State, job: Job, c: (Calls, Calls, Calls))
    requires Inv(s)
    ensures var done := Renewed(s, job, c);
            var over := job.Missing? || job in {InState(Completed), InState(CompletedWithWarnings), InState(Failed), InState(Canceled)};
            var changing := job in {InState(Pausing), InState(Canceling)};
            && (done.finished <==> over)
            && (over || changing || job.Unreachable? ==> done.state == s && (done.ok <==> !job.Unreachable?))
            && (!over && !changing && done.ok ==> Agreed(done.state))
  {
    hide Delivered, Staged, Agreed, NoneAhead, Inv;
    InvNoneAhead(s);
    DeliveredTrue(s, c.0);
    var (_, first) := Delivered(s, c.0);
    StagedTrue(first, c.1);
    var (_, second) := Staged(first, c.1);
    DeliveredTrue(second, c.2);
  }

  /** Nothing is sent or recorded for a job that cannot be read, and what is sent is the lease that was pending. */
  lemma SentOnlyIfRead(s: State, c: Calls)
    ensures var (r, after) := Delivered(s, c);
            && (after.sent != s.sent ==> c.status && c.job && s.link.pending.Some? && after.sent == s.sent + {s.link.pending.value})
            && (!c.arrives ==> c.late != [] || after.held == s.held)
            && (r == Some(Confirmed) && s.held != s.link.pending ==> c.job && c.arrives && c.answers)
  {
    hide MaySend, Stage, Confirm, Receive;
    ArrivedKeeps(s, c.late);
    if c.status {
      ReconciledExactly(s.link, s.held, s.standing.credential, s.clock + c.first);
    }
  }

  lemma StagedOnlyIfRead(s: State, c: Calls)
    ensures var (staged, after) := Staged(s, c);
            && (staged ==>
                  && c.status && c.job && after.link.pending.Some?
                  && s.held == after.link.confirmed && after.link.pending.value.revision == Revision(s.held) + 1 <= MAX_REVISION)
            && after.sent == s.sent
  {
    hide Issue;
    ArrivedKeeps(s, c.late);
    if c.status {
      ReconciledExactly(s.link, s.held, s.standing.credential, s.clock + c.first);
    }
  }
}
