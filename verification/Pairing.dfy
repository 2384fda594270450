/**
Pairing two nodes through the Control Tower. Each node holds a ticket it can use
once, the issuer's invite and the target's request, and a row for its peer.
*/
module Pairing {
  import opened Wrappers

  datatype PeerState =
    | Trusted | Unknown | Online | Offline | Degraded
    | RevokedPeer | RevokedByPeer | IdentityChanged | Untrusted

  predicate TrustedState(s: PeerState) {
    s.Trusted? || s.Unknown? || s.Online? || s.Offline? || s.Degraded?
  }

  datatype Ticket = Pending | Used | Closed | Gone

  /** One node's part: its row for the other, its ticket, and how often that was used. */
  datatype Side = Side(peer: Option<PeerState>, ticket: Ticket, uses: nat)

  predicate Trusts(side: Side) {
    side.peer.Some? && TrustedState(side.peer.value)
  }

  /** The ticket a node reports as usable: an expired one is not. */
  predicate Usable(side: Side, now: int, expires: int) {
    side.ticket == Pending && now <= expires
  }

  /** Approving the invite, or accepting the request, uses the ticket and trusts the peer in one step. */
  function Take(side: Side, now: int, expires: int): Option<Side> {
    if Usable(side, now, expires) then Some(Side(Some(Trusted), Used, side.uses + 1)) else None
  }

  datatype Dropped = Dropped | NoSuchPeer

  /** Revoking keeps the row, marked; a missing row is already as wanted. */
  function Drop(side: Side): (Side, Dropped) {
    if side.peer.None? then (side, NoSuchPeer) else (side.(peer := Some(RevokedPeer)), Dropped)
  }

  // ---------- The status of two rows ----------

  datatype TrustStatus =
    | Connected | Unreachable | RevokedLocally | IdentityNotSame | DroppedByPeer | NotRegistered | RemoteUnreadable | MissingOnPeer

  function Classify(local: PeerState, remote: Option<PeerState>, registered: bool, readable: bool): TrustStatus {
    if local.RevokedPeer? then RevokedLocally
    else if local.IdentityChanged? then IdentityNotSame
    else if local.RevokedByPeer? || local.Untrusted? then DroppedByPeer
    else if !registered then NotRegistered
    else if !readable then RemoteUnreadable
    else if remote.None? then MissingOnPeer
    else if remote.value.RevokedPeer? then DroppedByPeer
    else if !TrustedState(remote.value) then DroppedByPeer
    else if local.Offline? then Unreachable
    else Connected
  }

  /** Connected is said of exactly the pairs that trust each other and can be read. */
  lemma ClassifiedConnectedIsMutual(local: PeerState, remote: Option<PeerState>, registered: bool, readable: bool)
    ensures Classify(local, remote, registered, readable) == Connected <==>
              TrustedState(local) && !local.Offline? && registered && readable && remote.Some? && TrustedState(remote.value)
  {
  }

  /** Each other status says what is wrong, the local row first. */
  lemma ClassifiedExactly(local: PeerState, remote: Option<PeerState>, registered: bool, readable: bool)
    ensures var status := Classify(local, remote, registered, readable);
            var heard := TrustedState(local) && registered && readable;
            && (status == RevokedLocally <==> local == RevokedPeer)
            && (status == IdentityNotSame <==> local == IdentityChanged)
            && (status == DroppedByPeer <==>
                  local == RevokedByPeer || local == Untrusted || (heard && remote.Some? && !TrustedState(remote.value)))
            && (status == NotRegistered <==> TrustedState(local) && !registered)
            && (status == RemoteUnreadable <==> TrustedState(local) && registered && !readable)
            && (status == MissingOnPeer <==> heard && remote.None?)
            && (status == Unreachable <==> heard && remote.Some? && TrustedState(remote.value) && local == Offline)
  {
  }

  // ---------- Driving the handshake ----------

  datatype Status = PendingReview | PartiallyConnected | ConnectedBoth | Rejected | RevokedBoth

  datatype Pair = Pair(issuer: Side, target: Side, status: Status, expires: int)

  datatype Call = RequestLost | AnswerLost | Answered

  /** How each call goes, in order; `readable` is the reading of both nodes at the start. */
  datatype Calls = Calls(
    readable: bool, inviteRead: bool, secret: bool, approve: Call, requestRead: bool, accept: Call)

  const UP := Calls(true, true, true, Answered, true, Answered)

  datatype Outcome = Established | Unavailable | NeedsNewInvite | ApprovalFailed | AcceptanceFailed | NotReconcilable

  /** What a node made of a request, and whether the Control Tower knows it worked. */
  function Asked(side: Side, how: Call, now: int, expires: int): (Side, bool) {
    var taken := Take(side, now, expires);
    (if how.RequestLost? || taken.None? then side else taken.value, how.Answered? && taken.Some?)
  }

  function IssuerPart(p: Pair, c: Calls, now: int): (Pair, Option<Outcome>) {
    if Trusts(p.issuer) then (p, None)
    else if !c.inviteRead then (p, Some(Unavailable))
    else if !Usable(p.issuer, now, p.expires) then (p.(status := PartiallyConnected), Some(NeedsNewInvite))
    else if !c.secret then (p, Some(Unavailable))
    else
      var (side, known) := Asked(p.issuer, c.approve, now, p.expires);
      (p.(issuer := side), if known then None else Some(ApprovalFailed))
  }

  /** `confirmed` says the fingerprint given is the issuer's. */
  function TargetPart(p: Pair, done: bool, confirmed: bool, c: Calls, now: int): (Pair, Option<Outcome>) {
    if done then (p, None)
    else if !c.requestRead then (p, Some(Unavailable))
    else if !Usable(p.target, now, p.expires) then (p.(status := PartiallyConnected), Some(NeedsNewInvite))
    else
      var (side, known) := if confirmed then Asked(p.target, c.accept, now, p.expires) else (p.target, false);
      if known then (p.(target := side), None)
      else (p.(target := side, status := PartiallyConnected), Some(AcceptanceFailed))
  }

  /** Each step looks before it acts, so running it again finishes the missing half. */
  function Establish(p: Pair, confirmed: bool, c: Calls, now: int): (Pair, Outcome) {
    if !c.readable then (p, Unavailable)
    else
      var targetDone := Trusts(p.target);
      var (first, stopped) := IssuerPart(p, c, now);
      if stopped.Some? then (first, stopped.value)
      else
        var (second, halted) := TargetPart(first, targetDone, confirmed, c, now);
        if halted.Some? then (second, halted.value) else (second.(status := ConnectedBoth), Established)
  }

  function Reconcile(p: Pair, c: Calls, now: int): (Pair, Outcome) {
    if p.status.Rejected? || p.status.RevokedBoth? then (p, NotReconcilable) else Establish(p, true, c, now)
  }

  /** How the two deletions go. */
  function DropOn(side: Side, how: Call): (Side, bool) {
    (if how.RequestLost? then side else Drop(side).0, how.Answered?)
  }

  function RevokeConnection(p: Pair, readable: bool, onIssuer: Call, onTarget: Call): (Pair, bool) {
    if !readable then (p, false)
    else
      var (issuer, first) := DropOn(p.issuer, onIssuer);
      var (target, second) := DropOn(p.target, onTarget);
      var both := first && second;
      (p.(issuer := issuer, target := target, status := if both then RevokedBoth else p.status), both)
  }

  class Connection {
    var pair: Pair

    constructor (expires: int)
      ensures pair == Pair(Side(None, Pending, 0), Side(None, Pending, 0), PendingReview, expires)
    {
      pair := Pair(Side(None, Pending, 0), Side(None, Pending, 0), PendingReview, expires);
    }

    method Approve(how: Call, now: int) returns (known: bool)
      modifies this
      ensures pair == old(pair).(issuer := Asked(old(pair).issuer, how, now, old(pair).expires).0)
      ensures known == Asked(old(pair).issuer, how, now, old(pair).expires).1
    {
      known := false;
      if !how.RequestLost? && pair.issuer.ticket == Pending && now <= pair.expires {
        pair := pair.(issuer := Side(Some(Trusted), Used, pair.issuer.uses + 1));
        known := how.Answered?;
      }
    }

    method EstablishConnection(confirmed: bool, c: Calls, now: int) returns (outcome: Outcome)
      modifies this
      ensures (pair, outcome) == Establish(old(pair), confirmed, c, now)
    {
      if !c.readable {
        return Unavailable;
      }
      var issuerDone, targetDone := Trusts(pair.issuer), Trusts(pair.target);
      if !issuerDone {
        if !c.inviteRead {
          return Unavailable;
        }
        if pair.issuer.ticket != Pending || now > pair.expires {
          pair := pair.(status := PartiallyConnected);
          return NeedsNewInvite;
        }
        if !c.secret {
          return Unavailable;
        }
        var known := Approve(c.approve, now);
        if !known {
          return ApprovalFailed;
        }
      }
      if !targetDone {
        if !c.requestRead {
          return Unavailable;
        }
        if pair.target.ticket != Pending || now > pair.expires {
          pair := pair.(status := PartiallyConnected);
          return NeedsNewInvite;
        }
        var taken := if confirmed then Take(pair.target, now, pair.expires) else None;
        if !c.accept.RequestLost? && taken.Some? {
          pair := pair.(target := taken.value);
        }
        if !c.accept.Answered? || taken.None? {
          pair := pair.(status := PartiallyConnected);
          return AcceptanceFailed;
        }
      }
      pair := pair.(status := ConnectedBoth);
      return Established;
    }

    method Revoke(readable: bool, onIssuer: Call, onTarget: Call) returns (both: bool)
      modifies this
      ensures (pair, both) == RevokeConnection(old(pair), readable, onIssuer, onTarget)
    {
      if !readable {
        return false;
      }
      if !onIssuer.RequestLost? && pair.issuer.peer.Some? {
        pair := pair.(issuer := pair.issuer.(peer := Some(RevokedPeer)));
      }
      if !onTarget.RequestLost? && pair.target.peer.Some? {
        pair := pair.(target := pair.target.(peer := Some(RevokedPeer)));
      }
      both := onIssuer.Answered? && onTarget.Answered?;
      if both {
        pair := pair.(status := RevokedBoth);
      }
    }
  }

  // ---------- What the two calls promise ----------

  /** Whatever happened before and whatever is lost, connected is reported only of nodes that trust each other. */
  lemma ConnectedIsMutual(p: Pair, confirmed: bool, c: Calls, now: int)
    ensures var (after, outcome) := Establish(p, confirmed, c, now);
            && (outcome == Established ==> Trusts(after.issuer) && Trusts(after.target) && after.status == ConnectedBoth)
            && (after.status == ConnectedBoth && p.status != ConnectedBoth ==> outcome == Established)
  {
  }

  /** Revoked is recorded only when neither node trusts the other. */
  lemma RevokedIsMutual(p: Pair, readable: bool, onIssuer: Call, onTarget: Call)
    ensures var (after, both) := RevokeConnection(p, readable, onIssuer, onTarget);
            && (both ==> !Trusts(after.issuer) && !Trusts(after.target) && after.status == RevokedBoth)
            && (after.status == RevokedBoth && p.status != RevokedBoth ==> both)
            && (Trusts(after.issuer) ==> Trusts(p.issuer)) && (Trusts(after.target) ==> Trusts(p.target))
  {
  }

  // ---------- What an attempt comes to ----------

  /** Nothing is left to do on the issuer's side, or every call of it is answered. */
  predicate IssuerDone(p: Pair, c: Calls, now: int) {
    Trusts(p.issuer) || (c.inviteRead && p.issuer.ticket == Pending && now <= p.expires && c.secret && c.approve == Answered)
  }

  predicate TargetDone(p: Pair, confirmed: bool, c: Calls, now: int) {
    Trusts(p.target) || (c.requestRead && p.target.ticket == Pending && now <= p.expires && confirmed && c.accept == Answered)
  }

  /** An attempt connects if and only if both nodes can be read and both sides are, or get, done. */
  lemma EstablishedExactly(p: Pair, confirmed: bool, c: Calls, now: int)
    ensures Establish(p, confirmed, c, now).1 == Established <==>
              c.readable && IssuerDone(p, c, now) && TargetDone(p, confirmed, c, now)
  {
  }

  /** Each failure is told of exactly one step: the first that could not be taken. */
  lemma FailureNamesItsStep(p: Pair, confirmed: bool, c: Calls, now: int)
    ensures var outcome := Establish(p, confirmed, c, now).1;
            var asksIssuer := c.readable && !Trusts(p.issuer);
            var asksTarget := c.readable && IssuerDone(p, c, now) && !Trusts(p.target);
            && (outcome == Unavailable <==>
                  || !c.readable
                  || (asksIssuer && (!c.inviteRead || (p.issuer.ticket == Pending && now <= p.expires && !c.secret)))
                  || (asksTarget && !c.requestRead))
            && (outcome == NeedsNewInvite <==>
                  || (asksIssuer && c.inviteRead && (p.issuer.ticket != Pending || now > p.expires))
                  || (asksTarget && c.requestRead && (p.target.ticket != Pending || now > p.expires)))
            && (outcome == ApprovalFailed <==>
                  asksIssuer && c.inviteRead && p.issuer.ticket == Pending && now <= p.expires && c.secret && c.approve != Answered)
            && (outcome == AcceptanceFailed <==>
                  asksTarget && c.requestRead && p.target.ticket == Pending && now <= p.expires && !(confirmed && c.accept == Answered))
            && outcome != NotReconcilable
  {
  }

  /**
  What an attempt leaves on the nodes: a side comes to trust exactly if it was asked,
  the request arrived and its ticket was good, on the target's side with the issuer's
  fingerprint; otherwise it is as it was.
  */
  lemma SidesAfter(p: Pair, confirmed: bool, c: Calls, now: int)
    ensures var after := Establish(p, confirmed, c, now).0;
            && (after.issuer != p.issuer <==>
                  && c.readable && !Trusts(p.issuer) && c.inviteRead && c.secret && c.approve != RequestLost
                  && p.issuer.ticket == Pending && now <= p.expires)
            && (after.target != p.target <==>
                  && c.readable && IssuerDone(p, c, now) && !Trusts(p.target) && c.requestRead && confirmed && c.accept != RequestLost
                  && p.target.ticket == Pending && now <= p.expires)
            && (after.issuer != p.issuer ==> after.issuer == Side(Some(Trusted), Used, p.issuer.uses + 1))
            && (after.target != p.target ==> after.target == Side(Some(Trusted), Used, p.target.uses + 1))
            && after.expires == p.expires
  {
  }

  /** What is recorded: connected, a half that is missing, or as before. */
  lemma StatusAfter(p: Pair, confirmed: bool, c: Calls, now: int)
    ensures var (after, outcome) := Establish(p, confirmed, c, now);
            after.status == match outcome
                            case Established => ConnectedBoth
                            case NeedsNewInvite => PartiallyConnected
                            case AcceptanceFailed => PartiallyConnected
                            case _ => p.status
  {
  }

  /** A rejected or revoked connection is not taken up again; any other is, as if the fingerprint were confirmed. */
  lemma ReconciledUnlessClosed(p: Pair, c: Calls, now: int)
    ensures var (after, outcome) := Reconcile(p, c, now);
            && (outcome == NotReconcilable <==> p.status == Rejected || p.status == RevokedBoth)
            && (outcome == NotReconcilable ==> after == p)
            && (outcome == Established <==>
                  outcome != NotReconcilable && c.readable && IssuerDone(p, c, now) && TargetDone(p, true, c, now))
  {
  }

  /** A revocation reaches exactly the rows it is asked to, and is recorded if and only if both deletions are answered. */
  lemma RevokedExactly(p: Pair, readable: bool, onIssuer: Call, onTarget: Call)
    ensures var (after, both) := RevokeConnection(p, readable, onIssuer, onTarget);
            && (both <==> readable && onIssuer == Answered && onTarget == Answered)
            && (after.status == if both then RevokedBoth else p.status)
            && after.issuer == (if readable && onIssuer != RequestLost && p.issuer.peer.Some?
                                then p.issuer.(peer := Some(RevokedPeer)) else p.issuer)
            && after.target == (if readable && onTarget != RequestLost && p.target.peer.Some?
                                then p.target.(peer := Some(RevokedPeer)) else p.target)
  {
  }

  // ---------- Interrupted anywhere ----------

  /** Everything that can happen to the nodes while nothing is revoked or expired. */
  datatype Event =
    | Attempt(confirmed: bool, c: Calls)
    | LateApproval
    | LateAcceptance
    | IssuerSees(state: PeerState)
    | TargetSees(state: PeerState)

  function Seen(side: Side, state: PeerState): Side {
    if side.peer.Some? && TrustedState(state) then side.(peer := Some(state)) else side
  }

  function Next(p: Pair, e: Event, now: int): Pair {
    match e
    case Attempt(confirmed, c) => Establish(p, confirmed, c, now).0
    case LateApproval => p.(issuer := Asked(p.issuer, Answered, now, p.expires).0)
    case LateAcceptance => p.(target := Asked(p.target, Answered, now, p.expires).0)
    case IssuerSees(state) => p.(issuer := Seen(p.issuer, state))
    case TargetSees(state) => p.(target := Seen(p.target, state))
  }

  function Run(p: Pair, events: seq<(Event, int)>): Pair {
    if events == [] then p else Next(Run(p, events[..|events| - 1]), events[|events| - 1].0, events[|events| - 1].1)
  }

  /** A ticket is unused and the peer unknown, or used once and the peer trusted. */
  predicate Whole(side: Side) {
    || (side.ticket == Pending && side.peer.None? && side.uses == 0)
    || (side.ticket == Used && Trusts(side) && side.uses == 1)
  }

  lemma {:induction false} RunKeepsWhole(p: Pair, events: seq<(Event, int)>)
    requires Whole(p.issuer) && Whole(p.target)
    ensures var end := Run(p, events);
            Whole(end.issuer) && Whole(end.target) && end.expires == p.expires
    decreases |events|
  {
    hide Whole, Next;
    if events != [] {
      RunKeepsWhole(p, events[..|events| - 1]);
      NextKeepsWhole(Run(p, events[..|events| - 1]), events[|events| - 1].0, events[|events| - 1].1);
    }
  }

  lemma NextKeepsWhole(p: Pair, e: Event, now: int)
    requires Whole(p.issuer) && Whole(p.target)
    ensures Whole(Next(p, e, now).issuer) && Whole(Next(p, e, now).target) && Next(p, e, now).expires == p.expires
  {
  }

  /**
  After any attempts, interrupted anywhere, with requests arriving late or twice,
  one attempt with both nodes up before the tickets expire connects them; each
  ticket has then been used exactly once.
  */
  lemma ResumedAttemptConnects(p: Pair, events: seq<(Event, int)>, now: int)
    requires Whole(p.issuer) && Whole(p.target) && now <= p.expires
    ensures var (end, outcome) := Establish(Run(p, events), true, UP, now);
            && outcome == Established && Trusts(end.issuer) && Trusts(end.target)
            && end.issuer.uses == 1 && end.target.uses == 1
  {
    RunKeepsWhole(p, events);
  }

  // ---------- A request that arrives after a revocation ----------

  /** The node's side after approvals of its ticket arrive at these times. */
  function Late(side: Side, times: seq<int>, expires: int): Side {
    if times == [] then side
    else Asked(Late(side, times[..|times| - 1], expires), Answered, times[|times| - 1], expires).0
  }

  predicate InTime(times: seq<int>, expires: int) {
    exists i :: 0 <= i < |times| && times[i] <= expires
  }

  /** A side that was revoked trusts again exactly if its ticket was still unused and a request comes in time. */
  lemma {:induction false} RevokedStaysExactly(side: Side, times: seq<int>, expires: int)
    requires !Trusts(side)
    ensures Trusts(Late(side, times, expires)) <==> side.ticket == Pending && InTime(times, expires)
    ensures !InTime(times, expires) ==> Late(side, times, expires) == side
    ensures InTime(times, expires) && side.ticket == Pending ==> Late(side, times, expires).ticket == Used
    ensures side.ticket != Pending ==> Late(side, times, expires) == side
    decreases |times|
  {
    if times != [] {
      var last := |times| - 1;
      RevokedStaysExactly(side, times[..last], expires);
      assert InTime(times, expires) <==> InTime(times[..last], expires) || times[last] <= expires by {
        if InTime(times[..last], expires) {
          var i :| 0 <= i < last && times[..last][i] <= expires;
          assert times[i] <= expires;
        }
        if InTime(times, expires) && times[last] > expires {
          var i :| 0 <= i < |times| && times[i] <= expires;
          assert times[..last][i] <= expires;
        }
      }
    }
  }

  /** An approval still on its way when a revocation is recorded finds the invite unused. */
  lemma LateApprovalTrustsAgain(expires: int)
    ensures var p := Pair(Side(None, Pending, 0), Side(None, Pending, 0), PendingReview, expires);
            var tried := Establish(p, true, UP.(approve := RequestLost), expires).0;
            var (revoked, both) := RevokeConnection(tried, true, Answered, Answered);
            both && revoked.status == RevokedBoth && Trusts(Late(revoked.issuer, [expires], expires))
  {
    var p := Pair(Side(None, Pending, 0), Side(None, Pending, 0), PendingReview, expires);
    var side := p.issuer;
    assert InTime([expires], expires) by {
      assert [expires][0] <= expires;
    }
    RevokedStaysExactly(side, [expires], expires);
  }
}
