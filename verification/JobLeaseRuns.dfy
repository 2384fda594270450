/**
The lease protocol as steps of the Control Tower, the node and a network that
may lose, delay, repeat and reorder what was sent. A reported status is read at
one instant and acted on at a later one.
*/
module JobLeaseRuns {
  import opened Wrappers
  import opened JobLease

  datatype Seen = Seen(status: Option<Lease>, at: int)

  datatype State = State(
    link: Link,
    held: Option<Lease>,
    sent: set<Lease>,
    answered: set<Lease>,
    seen: Option<Seen>,
    standing: Standing,
    clock: int)

  function Start(standing: Standing, clock: int): State {
    State(Link(None, None), None, {}, {}, None, standing, clock)
  }

  datatype Step =
    | Wait(now: int)
    | Change(standing: Standing)
    | Observe
    | Act
    | Drop
    | StageNext
    | Send
    | Arrive(lease: Lease)
    | TakeAnswer(lease: Lease)

  predicate Enabled(s: State, step: Step) {
    match step
    case Wait(now) => s.clock <= now
    case Act => s.seen.Some?
    case StageNext => s.seen.None?
    case Send => s.seen.None?
    case Arrive(lease) => lease in s.sent
    case TakeAnswer(lease) => s.seen.None? && lease in s.answered
    case _ => true
  }

  /** The pending envelope is sent only if signing it now would give the same access for at least as long. */
  predicate MaySend(s: State) {
    && s.link.pending.Some?
    && s.clock < Expiry(s.link.pending.value)
    && var l := s.link.pending.value;
       var again := Issue(s.standing, l.revision, s.clock);
       again.Some? && again.value.expiresAt >= l.expiresAt && again.value.context == l.context
  }

  function Next(s: State, step: Step): State
    requires Enabled(s, step)
  {
    match step
    case Wait(now) => s.(clock := now)
    case Change(standing) => s.(standing := standing)
    case Observe => s.(seen := Some(Seen(s.held, s.clock)))
    case Act =>
      (match Reconcile(s.link, s.seen.value.status, s.standing.credential, s.clock)
       case Some((_, link)) => s.(link := link, seen := None)
       case None => s.(seen := None))
    case Drop => s.(seen := None)
    case StageNext =>
      (match Issue(s.standing, Revision(s.link.confirmed) + 1, s.clock)
       case Some(l) =>
         (match Stage(s.link, l, s.standing.credential, s.clock)
          case Some(link) => s.(link := link)
          case None => s)
       case None => s)
    case Send => if MaySend(s) then s.(sent := s.sent + {s.link.pending.value}) else s
    case Arrive(lease) =>
      (match Receive(s.held, lease, s.clock)
       case Some(held) => s.(held := held, answered := s.answered + {lease})
       case None => s)
    case TakeAnswer(lease) =>
      (match Confirm(s.link, lease, s.standing.credential, s.clock)
       case Some(link) => s.(link := link)
       case None => s)
  }

  // ---------- What should hold ----------

  /** The node's lease is the link's confirmed or pending one. */
  predicate Consistent(s: State) {
    s.held == s.link.confirmed || (s.link.pending.Some? && s.held == s.link.pending)
  }

  predicate Live(l: Lease, clock: int) {
    clock < Expiry(l)
  }

  /** An envelope the node could still see: one sent or staged. */
  predicate Out(s: State, l: Lease) {
    l in s.sent || s.link.pending == Some(l)
  }

  /** What a status that was read but not acted on can say. */
  predicate SeenOk(s: State) {
    s.seen.Some? ==>
      && s.seen.value.at <= s.clock
      && (|| s.seen.value.status == s.held
          || (s.seen.value.status == s.link.confirmed && s.link.pending.Some? && s.held == s.link.pending
              && s.seen.value.at < Expiry(s.link.pending.value)))
  }

  ghost predicate Inv(s: State) {
    && Consistent(s)
    && (s.link.pending.Some? ==> s.link.pending.value.revision == Revision(s.link.confirmed) + 1)
    && (forall l | l in s.sent :: l.revision <= Revision(s.link.confirmed) || s.link.pending == Some(l) || !Live(l, s.clock))
    && (forall l, m | Out(s, l) && Out(s, m) && l.revision == m.revision && Live(l, s.clock) && Live(m, s.clock) :: l == m)
    && (forall l | l in s.answered && s.link.pending == Some(l) :: s.held == Some(l))
    && s.answered <= s.sent
    && (forall l | Out(s, l) ::
          l.issuedAt <= Unix(s.clock) && l.expiresAt <= l.issuedAt + MAX_LIFETIME && 1 <= l.revision <= MAX_REVISION)
    && SeenOk(s)
  }

  /** An expired pending envelope is ended only with a status read after its end. */
  predicate Timely(s: State, step: Step) {
    step.Act? && s.seen.Some? && s.link.pending.Some? && !Live(s.link.pending.value, s.clock) ==>
      !Live(s.link.pending.value, s.seen.value.at)
  }

  lemma NextKeeps(s: State, step: Step)
    requires Inv(s) && Enabled(s, step) && Timely(s, step)
    ensures Inv(Next(s, step))
  {
    hide Inv, Next;
    match step
    case Wait(now) => WaitKeeps(s, now);
    case StageNext => StageKeeps(s);
    case Send => SendKeeps(s);
    case Arrive(lease) => ArriveKeeps(s, lease);
    case Act => ActKeeps(s);
    case TakeAnswer(lease) => AnswerKeeps(s, lease);
    case _ => ReadKeeps(s, step);
  }

  lemma WaitKeeps(s: State, now: int)
    requires Inv(s) && s.clock <= now
    ensures Inv(Next(s, Wait(now)))
  {
  }

  lemma SendKeeps(s: State)
    requires Inv(s) && s.seen.None?
    ensures Inv(Next(s, Send))
  {
    hide Issue;
  }

  lemma AnswerKeeps(s: State, lease: Lease)
    requires Inv(s) && s.seen.None? && lease in s.answered
    ensures Inv(Next(s, TakeAnswer(lease)))
  {
  }

  lemma ReadKeeps(s: State, step: Step)
    requires Inv(s) && (step.Change? || step.Observe? || step.Drop?)
    ensures Inv(Next(s, step))
  {
  }

  lemma StageKeeps(s: State)
    requires Inv(s) && s.seen.None?
    ensures Inv(Next(s, StageNext))
  {
    var issued := Issue(s.standing, Revision(s.link.confirmed) + 1, s.clock);
    if issued.Some? {
      VerifiedUntilExpiry(issued.value, s.clock);
    }
  }

  lemma ArriveKeeps(s: State, lease: Lease)
    requires Inv(s) && lease in s.sent
    ensures Inv(Next(s, Arrive(lease)))
  {
    VerifiedUntilExpiry(lease, s.clock);
  }

  lemma ActKeeps(s: State)
    requires Inv(s) && s.seen.Some? && Timely(s, Act)
    ensures Inv(Next(s, Act))
  {
  }

  // ---------- Runs ----------

  ghost predicate Steps(s: State, steps: seq<Step>)
    decreases |steps|
  {
    steps == [] || (Enabled(s, steps[0]) && Steps(Next(s, steps[0]), steps[1..]))
  }

  ghost function Run(s: State, steps: seq<Step>): State
    requires Steps(s, steps)
    decreases |steps|
  {
    if steps == [] then s else Run(Next(s, steps[0]), steps[1..])
  }

  ghost predicate AllTimely(s: State, steps: seq<Step>)
    requires Steps(s, steps)
    decreases |steps|
  {
    steps == [] || (Timely(s, steps[0]) && AllTimely(Next(s, steps[0]), steps[1..]))
  }

  lemma {:induction false} RunKeeps(s: State, steps: seq<Step>)
    requires Inv(s) && Steps(s, steps) && AllTimely(s, steps)
    ensures Inv(Run(s, steps))
    decreases |steps|
  {
    if steps != [] {
      NextKeeps(s, steps[0]);
      RunKeeps(Next(s, steps[0]), steps[1..]);
    }
  }

  /**
  Whatever is lost, delayed or repeated and whenever the process restarts: the
  node holds the confirmed or the pending lease, the pending one is the next
  revision, and no two envelopes still usable share a revision.
  */
  lemma LeasesAgree(standing: Standing, clock: int, steps: seq<Step>)
    requires Steps(Start(standing, clock), steps) && AllTimely(Start(standing, clock), steps)
    ensures var end := Run(Start(standing, clock), steps);
            && (end.held == end.link.confirmed || (end.link.pending.Some? && end.held == end.link.pending))
            && (end.link.pending.Some? ==> end.link.pending.value.revision == Revision(end.link.confirmed) + 1)
            && (forall l, m | l in end.sent && m in end.sent && l.revision == m.revision
                              && Live(l, end.clock) && Live(m, end.clock) :: l == m)
  {
    RunKeeps(Start(standing, clock), steps);
    var end := Run(Start(standing, clock), steps);
    forall l, m | l in end.sent && m in end.sent && l.revision == m.revision && Live(l, end.clock) && Live(m, end.clock)
      ensures l == m
    {
      assert Out(end, l) && Out(end, m);
    }
  }

  lemma {:induction false} RunJoins(s: State, first: seq<Step>, second: seq<Step>)
    requires Steps(s, first) && Steps(Run(s, first), second)
    ensures Steps(s, first + second) && Run(s, first + second) == Run(Run(s, first), second)
    decreases |first|
  {
    if first == [] {
      assert first + second == second;
    } else {
      RunJoins(Next(s, first[0]), first[1..], second);
      assert (first + second)[1..] == first[1..] + second;
    }
  }

  lemma RunOne(s: State, step: Step)
    requires Enabled(s, step)
    ensures Steps(s, [step]) && Run(s, [step]) == Next(s, step)
  {
    assert [step][1..] == [];
  }

  // ---------- Acting on a status read too early ----------

  /** Ending an expired envelope keeps the two sides together exactly if the status still says what the node holds. */
  lemma ResolveExactly(s: State)
    requires Inv(s) && s.seen.Some? && s.link.pending.Some? && !Live(s.link.pending.value, s.clock)
    ensures Consistent(Next(s, Act)) <==> s.seen.value.status == s.held
  {
  }

  /** A status read at or after the end of the envelope always still says it. */
  lemma ReadLateIsRight(s: State)
    requires Inv(s) && s.seen.Some? && s.link.pending.Some? && !Live(s.link.pending.value, s.seen.value.at)
    ensures s.seen.value.status == s.held
  {
  }

  /**
  Reading the status any earlier is never safe: wherever a delivery is on its way
  and the node could still take it, it can arrive after the status was read and
  leave the node with a lease the link no longer names.
  */
  lemma ReadEarlyCanBreak(s: State, later: int) returns (steps: seq<Step>)
    requires Inv(s) && s.seen.None? && s.link.pending.Some? && s.link.pending.value in s.sent
    requires s.held == s.link.confirmed && Verified(s.link.pending.value, s.link.pending.value.revision, s.clock)
    requires later >= Expiry(s.link.pending.value)
    ensures |steps| > 0 && steps[0] == Observe && Steps(s, steps) && !Consistent(Run(s, steps))
  {
    var l := s.link.pending.value;
    VerifiedUntilExpiry(l, s.clock);
    var s1 := Next(s, Observe);
    var s2 := Next(s1, Arrive(l));
    var s3 := Next(s2, Wait(later));
    var s4 := Next(s3, Act);
    steps := [Observe, Arrive(l), Wait(later), Act];
    assert steps[1..] == [Arrive(l), Wait(later), Act] && steps[1..][1..] == [Wait(later), Act];
    assert steps[1..][1..][1..] == [Act] && steps[1..][1..][1..][1..] == [];
    assert Steps(s4, []) && Run(s4, []) == s4;
    assert Steps(s3, [Act]) && Run(s3, [Act]) == s4;
    assert Steps(s2, [Wait(later), Act]) && Run(s2, [Wait(later), Act]) == s4;
    assert Steps(s1, [Arrive(l), Wait(later), Act]) && Run(s1, [Arrive(l), Wait(later), Act]) == s4;
  }

  /** A first lease, sent and overtaken by its own status: a whole run that ends with the two sides apart. */
  lemma EarlyReadBreaksARun(standing: Standing, clock: int) returns (steps: seq<Step>)
    requires Issue(standing, 1, clock).Some?
    ensures Steps(Start(standing, clock), steps) && !Consistent(Run(Start(standing, clock), steps))
  {
    hide Consistent, Inv;
    var start := Start(standing, clock);
    var l := Issue(standing, 1, clock).value;
    VerifiedUntilExpiry(l, clock);
    StartKeeps(standing, clock);
    StagedAndSent(standing, clock, l);
    var staged := Next(start, StageNext);
    var sent := Next(staged, Send);
    NextKeeps(start, StageNext);
    NextKeeps(staged, Send);
    var rest := ReadEarlyCanBreak(sent, Expiry(l));
    RunOne(start, StageNext);
    RunOne(staged, Send);
    RunJoins(start, [StageNext], [Send]);
    RunJoins(start, [StageNext] + [Send], rest);
    steps := [StageNext] + [Send] + rest;
  }

  lemma StartKeeps(standing: Standing, clock: int)
    ensures Inv(Start(standing, clock))
  {
  }

  lemma StagedAndSent(standing: Standing, clock: int, l: Lease)
    requires Issue(standing, 1, clock) == Some(l)
    ensures var staged := Next(Start(standing, clock), StageNext);
            var sent := Next(staged, Send);
            && staged.seen.None? && staged.link == Link(None, Some(l)) && sent.held.None? && sent.clock == clock && sent.seen.None?
            && sent.link == staged.link && l in sent.sent
  {
    VerifiedUntilExpiry(l, clock);
    assert Expiry(l) <= Ends(standing, clock);
  }

  // ---------- What is sent ----------

  /** Whenever a lease goes out, first or again, it carries the access and ends by every limit of that moment. */
  lemma SentIsCurrentAndShort(s: State, l: Lease)
    requires s.seen.None? && MaySend(s) && s.link.pending == Some(l)
    ensures l in Next(s, Send).sent && l.context == s.standing.context && s.standing.covers
    ensures s.clock < Expiry(l) <= s.clock + MAX_LIFETIME * SECOND
    ensures forall limit | limit in [s.standing.credential, s.standing.temporary, s.standing.deadline] && limit.Some? ::
              Expiry(l) <= limit.value
  {
    var again := Issue(s.standing, l.revision, s.clock).value;
    assert Expiry(l) <= Expiry(again) <= Ends(s.standing, s.clock);
  }

  /**
  The node takes only a live lease of the next revision; only such a lease is
  staged, within the credential; and what is confirmed is what the node holds,
  still live unless it was pending when it ran out.
  */
  lemma ChangesAreEarned(s: State, step: Step)
    requires Inv(s) && Enabled(s, step) && Timely(s, step)
    ensures var t := Next(s, step);
            t.held != s.held ==>
              t.held.Some? && t.held.value in s.sent && t.held.value.revision == Revision(s.held) + 1 && Live(t.held.value, s.clock)
    ensures var t := Next(s, step);
            t.link.pending != s.link.pending && t.link.pending.Some? ==>
              && s.link.pending.None? && t.link.pending.value.revision == Revision(s.link.confirmed) + 1
              && Live(t.link.pending.value, s.clock)
              && (s.standing.credential.Some? ==> Expiry(t.link.pending.value) <= s.standing.credential.value)
    ensures var t := Next(s, step);
            t.link.confirmed != s.link.confirmed ==>
              && t.link.confirmed == s.link.pending == s.held && t.link.pending.None?
              && (Live(s.link.pending.value, s.clock) || step.Act?)
    ensures var t := Next(s, step);
            s.link.pending.Some? && t.link.pending.None? ==> t.link.confirmed == s.held
  {
    hide Issue, Ends;
    match step
    case Arrive(lease) => VerifiedUntilExpiry(lease, s.clock);
    case StageNext =>
      var issued := Issue(s.standing, Revision(s.link.confirmed) + 1, s.clock);
      if issued.Some? {
        VerifiedUntilExpiry(issued.value, s.clock);
      }
    case _ =>
  }

  /** Neither side ever goes back to an earlier revision. */
  lemma RevisionsGrow(s: State, step: Step)
    requires Inv(s) && Enabled(s, step)
    ensures Revision(Next(s, step).held) >= Revision(s.held)
    ensures Revision(Next(s, step).link.confirmed) >= Revision(s.link.confirmed)
  {
  }
}
