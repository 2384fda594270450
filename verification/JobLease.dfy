/**
The lease of one signed job: what is signed, the durable link the Control Tower
keeps about it and the lease the node keeps. An envelope is its claims, and a
digest stands for the envelope it was taken of. The clock counts nanoseconds;
claims carry whole seconds.
*/
module JobLease {
  import opened Wrappers

  const SECOND := 1_000_000_000
  const MAX_LIFETIME := 30
  const MAX_REVISION := 0x7FFF_FFFF_FFFF_FFFF

  datatype Lease = Lease(revision: nat, context: nat, issuedAt: int, expiresAt: int)

  function Expiry(l: Lease): int {
    l.expiresAt * SECOND
  }

  function Unix(now: int): int {
    now / SECOND
  }

  /** The envelope is for this revision and its time has come and not gone. */
  predicate Verified(l: Lease, revision: nat, now: int) {
    l.revision == revision && l.issuedAt <= Unix(now) < l.expiresAt
  }

  /** Whole seconds lose nothing: a lease is refused from the instant it ends. */
  lemma VerifiedUntilExpiry(l: Lease, now: int)
    ensures Unix(now) < l.expiresAt <==> now < Expiry(l)
  {
  }

  // ---------- What may be signed now ----------

  /** The actor's standing: its access context, whether it covers the job, and when parts of it end. */
  datatype Standing = Standing(context: nat, covers: bool, credential: Option<int>, temporary: Option<int>, deadline: Option<int>)

  function Earlier(t: int, limit: Option<int>): (r: int)
    ensures r <= t && (limit.Some? ==> r <= limit.value)
    ensures r == t || limit == Some(r)
  {
    if limit.Some? && limit.value < t then limit.value else t
  }

  function Ends(a: Standing, now: int): int {
    Earlier(Earlier(Earlier(now + MAX_LIFETIME * SECOND, a.credential), a.temporary), a.deadline)
  }

  function Issue(a: Standing, revision: nat, now: int): (r: Option<Lease>)
    ensures r.Some? ==> Verified(r.value, revision, now) && r.value.context == a.context && Expiry(r.value) <= Ends(a, now)
    ensures r.Some? ==> r.value.issuedAt == Unix(now) && r.value.expiresAt <= Unix(now) + MAX_LIFETIME
  {
    var lease := Lease(revision, a.context, Unix(now), Unix(Ends(a, now)));
    if revision != 0 && a.covers && 0 < lease.issuedAt < lease.expiresAt <= lease.issuedAt + MAX_LIFETIME then Some(lease) else None
  }

  /** Whoever keeps their standing is never offered an earlier end later on. */
  lemma LaterEndsLater(a: Standing, revision: nat, now: int, later: int)
    requires now <= later && Issue(a, revision, now).Some? && later < Expiry(Issue(a, revision, now).value)
    ensures Issue(a, revision, later).Some?
    ensures Issue(a, revision, later).value.expiresAt >= Issue(a, revision, now).value.expiresAt
  {
    var first := Issue(a, revision, now).value;
    assert Ends(a, now) <= Ends(a, later) <= later + MAX_LIFETIME * SECOND;
    assert first.expiresAt == Unix(Ends(a, now)) <= Unix(Ends(a, later));
    assert Unix(later) < first.expiresAt;
    assert Unix(later + MAX_LIFETIME * SECOND) == Unix(later) + MAX_LIFETIME;
  }

  // ---------- The durable link ----------

  datatype Link = Link(confirmed: Option<Lease>, pending: Option<Lease>)

  function Revision(held: Option<Lease>): nat {
    if held.Some? then held.value.revision else 0
  }

  /** Records the envelope before it is delivered; the same one again changes nothing. */
  function Stage(link: Link, l: Lease, credential: Option<int>, now: int): (r: Option<Link>) {
    if l.revision == 0 || l.revision > MAX_REVISION || l.revision != Revision(link.confirmed) + 1 then None
    else if !Verified(l, l.revision, now) || (credential.Some? && Expiry(l) > credential.value) then None
    else if link.pending.Some? then (if link.pending.value == l then Some(link) else None)
    else Some(link.(pending := Some(l)))
  }

  /** Advances to exactly the envelope the node confirmed. */
  function Confirm(link: Link, l: Lease, credential: Option<int>, now: int): (r: Option<Link>) {
    if l.revision == 0 || l.revision > MAX_REVISION || (credential.Some? && Expiry(l) > credential.value) then None
    else if link.pending.None? && link.confirmed == Some(l) && now < Expiry(l) then Some(link)
    else if link.pending == Some(l) && now < Expiry(l) && l.revision == Revision(link.confirmed) + 1 then Some(Link(Some(l), None))
    else None
  }

  /** Ends an expired pending envelope with whichever of the two the node reports. */
  function ResolveExpired(link: Link, status: Option<Lease>, now: int): (r: Option<Link>) {
    if link.pending.None? || now < Expiry(link.pending.value) then None
    else if status == link.pending then Some(Link(status, None))
    else if status == link.confirmed then Some(Link(link.confirmed, None))
    else None
  }

  datatype Reconciliation = Synchronized | PendingDelivery | Confirmed | ExpiredResolved

  /** What a reported status does to the link. */
  function Reconcile(link: Link, status: Option<Lease>, credential: Option<int>, now: int): (r: Option<(Reconciliation, Link)>) {
    if link.pending.Some? && now >= Expiry(link.pending.value) then
      (match ResolveExpired(link, status, now)
       case Some(after) => Some((ExpiredResolved, after))
       case None => None)
    else if link.pending.Some? && status == link.pending then
      (match Confirm(link, link.pending.value, credential, now)
       case Some(after) => Some((Confirmed, after))
       case None => None)
    else if status != link.confirmed then None
    else if link.pending.Some? then Some((PendingDelivery, link))
    else Some((Synchronized, link))
  }

  // ---------- The node ----------

  /** What the node holds after an envelope arrives, if it takes it. */
  function Receive(held: Option<Lease>, l: Lease, now: int): (r: Option<Option<Lease>>) {
    if held == Some(l) then (if Verified(l, l.revision, now) then Some(held) else None)
    else if Verified(l, Revision(held) + 1, now) then Some(Some(l))
    else None
  }

  // ---------- What each decision comes to ----------

  /** Whether and for how long a lease is signed, by the standing alone. */
  lemma IssuedExactly(a: Standing, revision: nat, now: int)
    ensures Issue(a, revision, now).Some? <==>
              && revision > 0 && a.covers && SECOND <= now
              && forall limit | limit in [a.credential, a.temporary, a.deadline] && limit.Some? :: Unix(now) < Unix(limit.value)
  {
    var limits := [a.credential, a.temporary, a.deadline];
    assert a.credential in limits && a.temporary in limits && a.deadline in limits;
    assert Unix(now + MAX_LIFETIME * SECOND) == Unix(now) + MAX_LIFETIME;
    var end := Ends(a, now);
    assert end == now + MAX_LIFETIME * SECOND || Some(end) in limits;
    assert Unix(end) <= Unix(now + MAX_LIFETIME * SECOND);
    forall limit | limit in limits && limit.Some?
      ensures Unix(end) <= Unix(limit.value)
    {
      assert end <= limit.value;
    }
    assert 0 < Unix(now) <==> SECOND <= now;
  }

  /** What is recorded as pending: the next revision, in date and within the credential, and nothing in place of another. */
  lemma StagedExactly(link: Link, l: Lease, credential: Option<int>, now: int)
    ensures var r := Stage(link, l, credential, now);
            && (r.Some? <==>
                  && 0 < l.revision <= MAX_REVISION && l.revision == Revision(link.confirmed) + 1
                  && l.issuedAt <= Unix(now) && now < Expiry(l)
                  && (credential.Some? ==> Expiry(l) <= credential.value)
                  && (link.pending.None? || link.pending == Some(l)))
            && (r.Some? ==> r.value == Link(link.confirmed, Some(l)))
  {
    VerifiedUntilExpiry(l, now);
  }

  /** What is confirmed: the pending lease, in date and within the credential; the confirmed one again changes nothing. */
  lemma ConfirmedExactly(link: Link, l: Lease, credential: Option<int>, now: int)
    ensures var r := Confirm(link, l, credential, now);
            && (r.Some? <==>
                  && 0 < l.revision <= MAX_REVISION && now < Expiry(l)
                  && (credential.Some? ==> Expiry(l) <= credential.value)
                  && (|| (link.pending.None? && link.confirmed == Some(l))
                      || (link.pending == Some(l) && l.revision == Revision(link.confirmed) + 1)))
            && (r.Some? ==> r.value == Link(Some(l), None))
  {
  }

  /** What a reported status leads to, and when it leads to nothing. */
  lemma ReconciledExactly(link: Link, status: Option<Lease>, credential: Option<int>, now: int)
    ensures var r := Reconcile(link, status, credential, now);
            var over := link.pending.Some? && Expiry(link.pending.value) <= now;
            && (r.Some? && r.value.0 == ExpiredResolved <==> over && (status == link.pending || status == link.confirmed))
            && (r.Some? && r.value.0 == Confirmed <==>
                  link.pending.Some? && !over && status == link.pending && Confirm(link, link.pending.value, credential, now).Some?)
            && (r.Some? && r.value.0 == PendingDelivery <==>
                  link.pending.Some? && !over && status == link.confirmed && status != link.pending)
            && (r.Some? && r.value.0 == Synchronized <==> link.pending.None? && status == link.confirmed)
            && (r.Some? ==> r.value.1 == match r.value.0
                                         case ExpiredResolved => Link(status, None)
                                         case Confirmed => Link(status, None)
                                         case _ => link)
  {
  }

  /** What the node takes: the next revision in date; the one it has again, while that lasts. */
  lemma ReceivedExactly(held: Option<Lease>, l: Lease, now: int)
    ensures var r := Receive(held, l, now);
            && (r.Some? <==>
                  l.issuedAt <= Unix(now) && now < Expiry(l) && (held == Some(l) || l.revision == Revision(held) + 1))
            && (r.Some? ==> r.value == Some(l))
  {
    VerifiedUntilExpiry(l, now);
  }
}
