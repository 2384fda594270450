/**
The Control Tower's sync of the nodes it enrolled, and what it lets a root
rotation do. A node keeps the bundle it last adopted and the certificate chain
it serves; the Control Tower keeps a record of what it believes about it.
*/
module ManagedNodes {
  import opened Wrappers
  import opened PkiTypes
  import opened PkiCa
  import opened PkiBundle

  datatype Node = Node(held: Bundle, leaf: Cert, issuer: Cert)

  datatype Record = Record(
    bundleVersion: int,
    certSerial: nat,
    certIssuer: Option<nat>,
    certNotBefore: int,
    certNotAfter: int,
    failed: bool)

  /** What becomes of a request: it is lost, its answer is lost, or it is answered. */
  datatype Call = RequestLost | AnswerLost | Answered

  /** How the calls of one sync go; `registered` says the node could be looked up. */
  datatype Calls = Calls(registered: bool, status: bool, bundle: Call, request: bool, install: Call)

  const ALL_ANSWERED := Calls(true, true, Answered, true, Answered)

  // ---------- What a node does ----------

  function Adopt(n: Node, bundle: Bundle, now: int): Option<Node> {
    if bundle == n.held then Some(n)
    else if Adoptable(bundle, n.held, now) then Some(n.(held := bundle))
    else None
  }

  predicate Current(c: Cert, now: int) {
    c.notBefore <= now <= c.notAfter
  }

  /** The chain verifies against a root of the bundle and nothing on it is revoked. */
  predicate ServerChain(b: Body, leaf: Cert, issuer: Cert, now: int) {
    && Current(leaf, now) && Current(issuer, now) && SignedBy(leaf, issuer)
    && exists i :: 0 <= i < |b.roots| && SignedBy(issuer, b.roots[i]) && Current(b.roots[i], now)
                   && !ChainHit(b, [leaf, issuer, b.roots[i]])
  }

  function Install(n: Node, leaf: Cert, issuer: Cert, now: int): Option<Node> {
    if ServerChain(n.held.body, leaf, issuer, now) then Some(n.(leaf := leaf, issuer := issuer)) else None
  }

  // ---------- One node's sync ----------

  datatype Synced = Synced(record: Record, node: Node)

  function Fail(r: Record): Record {
    r.(failed := true)
  }

  /** What a call leaves: the node's new state if it arrived, and whether it is known to have worked. */
  function Deliver(n: Node, taken: Option<Node>, how: Call): (Node, bool) {
    (if how.RequestLost? || taken.None? then n else taken.value, how.Answered? && taken.Some?)
  }

  /** The record after believing what the node says of its certificate. */
  function Believe(r: Record, n: Node): Record {
    var seen := if n.leaf.serial == r.certSerial then r
                else r.(certSerial := n.leaf.serial, certNotAfter := n.leaf.notAfter,
                        certNotBefore := n.leaf.notAfter - DEFAULT_LEAF_VALIDITY);
    seen.(certIssuer := Some(n.issuer.serial))
  }

  predicate MustReplace(r: Record, view: View, now: int) {
    || LifeSpent(r.certNotBefore, r.certNotAfter, now)
    || (r.certIssuer.Some? && (r.certIssuer.value in view.bundle.body.revoked || r.certIssuer.value in view.retiredIssuers))
  }

  function Certify(r: Record, n: Node, view: View, number: nat, validity: int, now: int, calls: Calls): Synced {
    if !MustReplace(r, view, now) then Synced(r.(failed := false), n)
    else if !calls.request then Synced(Fail(r), n)
    else
      match Issue(view.issuer, number, number, true, 1, validity, now)
      case Err(_) => Synced(Fail(r), n)
      case Ok(leaf) =>
        var (after, known) := Deliver(n, Install(n, leaf, view.issuer, now), calls.install);
        if known then
          Synced(r.(certSerial := leaf.serial, certNotBefore := leaf.notBefore, certNotAfter := leaf.notAfter,
                    certIssuer := Some(view.issuer.serial), failed := false), after)
        else
          Synced(Fail(r), after)
  }

  /** Status, bundle if behind, then the certificate; the first failure ends it. */
  function Sync(r: Record, n: Node, view: View, number: nat, validity: int, now: int, calls: Calls): Synced {
    if !calls.registered then Synced(r, n)
    else if !calls.status then Synced(Fail(r), n)
    else
      var read := r.(bundleVersion := n.held.body.version);
      if n.held.body.version < view.bundle.body.version then
        var (after, known) := Deliver(n, Adopt(n, view.bundle, now), calls.bundle);
        if !known then Synced(Fail(read), after)
        else Certify(Believe(read.(bundleVersion := view.bundle.body.version), after), after, view, number, validity, now, calls)
      else
        Certify(Believe(read, n), n, view, number, validity, now, calls)
  }

  // ---------- What the records decide ----------

  /** A node whose certificate was revoked is not reached any more and holds nothing back. */
  predicate Reached(r: Record, view: View) {
    r.certSerial !in view.bundle.body.revoked
  }

  predicate DoneWithRoot(r: Record, view: View) {
    && r.bundleVersion >= view.bundle.body.version
    && !r.failed
    && r.certIssuer.Some?
    && r.certIssuer.value !in view.retiredIssuers
  }

  predicate RootUnused(records: seq<Record>, view: View) {
    && view.phase == PhasePromoted
    && forall i | 0 <= i < |records| && Reached(records[i], view) :: DoneWithRoot(records[i], view)
  }

  predicate Confirmed(records: seq<Record>, view: View) {
    forall i | 0 <= i < |records| && Reached(records[i], view) :: records[i].bundleVersion >= view.bundle.body.version
  }

  method SyncManagedNodes(records: array<Record>, nodes: array<Node>, view: View, first: nat, validity: int, now: int,
                          calls: seq<Calls>)
    returns (retire: bool)
    requires records.Length == nodes.Length == |calls|
    modifies records, nodes
    ensures forall i | 0 <= i < records.Length ::
              Synced(records[i], nodes[i]) == Sync(old(records[i]), old(nodes[i]), view, first + i, validity, now, calls[i])
    ensures retire <==> RootUnused(records[..], view)
  {
    for i := 0 to records.Length
      invariant forall k | i <= k < records.Length :: records[k] == old(records[k]) && nodes[k] == old(nodes[k])
      invariant forall k | 0 <= k < i ::
                  Synced(records[k], nodes[k]) == Sync(old(records[k]), old(nodes[k]), view, first + k, validity, now, calls[k])
    {
      var done := Sync(records[i], nodes[i], view, first + i, validity, now, calls[i]);
      records[i], nodes[i] := done.record, done.node;
    }
    retire := UnusedRoot(records[..], view);
  }

  method UnusedRoot(records: seq<Record>, view: View) returns (retire: bool)
    ensures retire <==> RootUnused(records, view)
  {
    if view.phase != PhasePromoted {
      return false;
    }
    for i := 0 to |records|
      invariant forall k | 0 <= k < i && Reached(records[k], view) :: DoneWithRoot(records[k], view)
    {
      var gone := Revoked(view.bundle.body, records[i].certSerial);
      if gone {
        continue;
      }
      if records[i].bundleVersion < view.bundle.body.version || records[i].failed || records[i].certIssuer.None?
         || records[i].certIssuer.value in view.retiredIssuers {
        return false;
      }
    }
    return true;
  }

  /** The nodes an unforced promotion waits for. */
  method NodesBehind(records: seq<Record>, view: View) returns (behind: seq<nat>)
    ensures behind == [] <==> Confirmed(records, view)
    ensures forall i :: i in behind <==> 0 <= i < |records| && Reached(records[i], view)
                                         && records[i].bundleVersion < view.bundle.body.version
    ensures forall i, j | 0 <= i < j < |behind| :: behind[i] < behind[j]
  {
    behind := [];
    for i := 0 to |records|
      invariant forall k :: k in behind <==> 0 <= k < i && Reached(records[k], view)
                                             && records[k].bundleVersion < view.bundle.body.version
      invariant forall j, k | 0 <= j < k < |behind| :: behind[j] < behind[k]
      invariant forall j | 0 <= j < |behind| :: behind[j] < i
      invariant behind == [] <==> forall k | 0 <= k < i && Reached(records[k], view) ::
                                    records[k].bundleVersion >= view.bundle.body.version
    {
      var gone := Revoked(view.bundle.body, records[i].certSerial);
      if !gone && records[i].bundleVersion < view.bundle.body.version {
        behind := behind + [i];
      }
    }
  }

  // ---------- What a record may claim ----------

  /**
  A record claims no bundle the node has not got and, unless marked failed, no wrong
  certificate; of the certificate it names it knows the end.
  */
  predicate Honest(r: Record, n: Node) {
    && r.bundleVersion <= n.held.body.version
    && (r.certSerial == n.leaf.serial ==> r.certNotAfter == n.leaf.notAfter && r.certNotBefore <= r.certNotAfter)
    && (!r.failed && r.certIssuer.Some? ==> r.certIssuer.value == n.issuer.serial && r.certSerial == n.leaf.serial)
  }

  /** The certificate part alone: with the bundle already right, the record stays honest. */
  lemma CertifyStaysHonest(r: Record, n: Node, view: View, number: nat, validity: int, now: int, calls: Calls)
    requires r.bundleVersion <= n.held.body.version && r.certIssuer == Some(n.issuer.serial) && r.certSerial == n.leaf.serial < number
    requires r.certNotAfter == n.leaf.notAfter && r.certNotBefore <= r.certNotAfter
    ensures var done := Certify(r, n, view, number, validity, now, calls);
            && Honest(done.record, done.node) && done.node.held == n.held
            && done.record.certSerial <= number && done.node.leaf.serial <= number
            && ((done.node.leaf == n.leaf && done.node.issuer == n.issuer)
                || (done.node.issuer == view.issuer && SignedBy(done.node.leaf, view.issuer) && done.node.leaf.serial == number
                    && done.node.leaf.notAfter <= view.issuer.notAfter))
  {
    hide ChainHit, LifeSpent;
  }

  /** However the calls go, the record stays honest and the node's bundle never goes back. */
  lemma SyncStaysHonest(r: Record, n: Node, view: View, number: nat, validity: int, now: int, calls: Calls)
    requires Honest(r, n) && r.certSerial < number && n.leaf.serial < number
    ensures var done := Sync(r, n, view, number, validity, now, calls);
            && Honest(done.record, done.node) && done.record.certSerial <= number && done.node.leaf.serial <= number
            && (done.node.held == n.held || (done.node.held == view.bundle && Adoptable(view.bundle, n.held, now)))
            && ((done.node.leaf == n.leaf && done.node.issuer == n.issuer)
                || (done.node.issuer == view.issuer && SignedBy(done.node.leaf, view.issuer) && done.node.leaf.serial == number
                    && done.node.leaf.notAfter <= view.issuer.notAfter))
  {
    hide Adoptable, Certify;
    if calls.registered && calls.status {
      var read := r.(bundleVersion := n.held.body.version);
      if n.held.body.version < view.bundle.body.version {
        var (after, known) := Deliver(n, Adopt(n, view.bundle, now), calls.bundle);
        if known {
          CertifyStaysHonest(Believe(read.(bundleVersion := view.bundle.body.version), after), after, view, number, validity, now, calls);
        }
      } else {
        CertifyStaysHonest(Believe(read, n), n, view, number, validity, now, calls);
      }
    }
  }

  /**
  A sync that ends well leaves the node with a bundle at least as new as the
  current one, and with a certificate just issued or one with life left whose
  intermediate is neither revoked nor under a retired root.
  */
  lemma SyncSettles(r: Record, n: Node, view: View, number: nat, validity: int, now: int, calls: Calls)
    requires calls.registered && !Sync(r, n, view, number, validity, now, calls).record.failed
    ensures var done := Sync(r, n, view, number, validity, now, calls);
            && done.node.held.body.version >= view.bundle.body.version
            && done.record.bundleVersion == done.node.held.body.version
            && done.record.certSerial == done.node.leaf.serial
            && done.record.certIssuer == Some(done.node.issuer.serial)
            && (|| (&& done.node.leaf.serial == number && done.node.issuer == view.issuer
                    && done.record.certNotAfter == done.node.leaf.notAfter)
                || (&& done.node.leaf == n.leaf && done.node.issuer == n.issuer
                    && !LifeSpent(done.record.certNotBefore, done.record.certNotAfter, now)
                    && done.node.issuer.serial !in view.bundle.body.revoked
                    && done.node.issuer.serial !in view.retiredIssuers))
  {
    hide Adoptable, ChainHit, LifeSpent;
  }

  // ---------- When a certificate is replaced ----------

  /** The start of the certificate's life as the record knows or guesses it. */
  function BelievedStart(r: Record, n: Node): int {
    if n.leaf.serial == r.certSerial then r.certNotBefore else n.leaf.notAfter - 90 * DAY
  }

  function BelievedEnd(r: Record, n: Node): int {
    if n.leaf.serial == r.certSerial then r.certNotAfter else n.leaf.notAfter
  }

  /** Two thirds of the believed life have passed, or the intermediate is revoked or under a retired root. */
  predicate DueForReplacement(r: Record, n: Node, view: View, now: int) {
    var start, end := BelievedStart(r, n), BelievedEnd(r, n);
    || now >= start + (end - start) * 2 / 3
    || n.issuer.serial in view.bundle.body.revoked
    || n.issuer.serial in view.retiredIssuers
  }

  /** The node could be looked up and asked, and has, or is known to have taken, the current bundle. */
  predicate UpToDate(n: Node, view: View, now: int, calls: Calls) {
    && calls.registered && calls.status
    && (n.held.body.version < view.bundle.body.version ==> calls.bundle == Answered && Adoptable(view.bundle, n.held, now))
  }

  /** The bundle the node has when its certificate is looked at. */
  function HeldThen(n: Node, view: View): Bundle {
    if n.held.body.version < view.bundle.body.version then view.bundle else n.held
  }

  /**
  However the calls go, a certificate is replaced only if it is due; one that is not is
  left alone and, once the node is up to date, the record is cleared of any failure.
  */
  lemma GoodCertificateStays(r: Record, n: Node, view: View, number: nat, validity: int, now: int, calls: Calls)
    ensures var done := Sync(r, n, view, number, validity, now, calls);
            && (done.node.leaf != n.leaf || done.node.issuer != n.issuer ==>
                  DueForReplacement(r, n, view, now) && UpToDate(n, view, now, calls))
            && (UpToDate(n, view, now, calls) && !DueForReplacement(r, n, view, now) ==>
                  done.node == n.(held := HeldThen(n, view)) && !done.record.failed)
  {
    hide Adoptable, ServerChain, Issue;
  }

  /** One that is due is replaced, and the record not marked failed, exactly if every call of it is answered and the new chain verifies. */
  lemma DueCertificateReplaced(r: Record, n: Node, view: View, number: nat, validity: int, now: int, calls: Calls)
    requires UpToDate(n, view, now, calls) && DueForReplacement(r, n, view, now)
    ensures var done := Sync(r, n, view, number, validity, now, calls);
            var issued := Issue(view.issuer, number, number, true, 1, validity, now);
            var installs := calls.request && issued.Ok? && ServerChain(HeldThen(n, view).body, issued.value, view.issuer, now);
            && (done.record.failed <==> !(installs && calls.install == Answered))
            && done.node == (if installs && calls.install != RequestLost then Node(HeldThen(n, view), issued.value, view.issuer)
                             else n.(held := HeldThen(n, view)))
            && (!done.record.failed ==>
                  done.record == Record(HeldThen(n, view).body.version, number, Some(view.issuer.serial),
                                        issued.value.notBefore, issued.value.notAfter, false))
  {
    hide Adoptable, ServerChain, Issue;
    if Issue(view.issuer, number, number, true, 1, validity, now).Ok? {
      IssuedNumber(view.issuer, number, validity, now);
    }
  }

  lemma IssuedNumber(issuer: Cert, number: nat, validity: int, now: int)
    requires Issue(issuer, number, number, true, 1, validity, now).Ok?
    ensures Issue(issuer, number, number, true, 1, validity, now).value.serial == number
  {
  }

  /** A node that is not brought up to date is marked failed, unless it could not be looked up, and keeps its certificate. */
  lemma BehindIsMarked(r: Record, n: Node, view: View, number: nat, validity: int, now: int, calls: Calls)
    requires !UpToDate(n, view, now, calls)
    ensures var done := Sync(r, n, view, number, validity, now, calls);
            && (if calls.registered then done.record.failed else done.record == r)
            && done.node.leaf == n.leaf && done.node.issuer == n.issuer
            && (done.node.held != n.held ==>
                  && calls.registered && calls.status && calls.bundle == AnswerLost
                  && done.node.held == view.bundle && n.held.body.version < view.bundle.body.version
                  && Adoptable(view.bundle, n.held, now))
            && (calls.registered && calls.status ==> done.record.bundleVersion == n.held.body.version)
  {
    hide Adoptable, Certify;
  }

  // ---------- What the records decide, spelled out ----------

  /** The retired root counts as unused exactly if, of a promoted rotation, no record still spoken to holds it back. */
  lemma UnusedExactly(records: seq<Record>, view: View)
    ensures RootUnused(records, view) <==>
              && view.phase == PhasePromoted
              && forall r | r in records && r.certSerial !in view.bundle.body.revoked ::
                   && r.bundleVersion >= view.bundle.body.version && !r.failed
                   && r.certIssuer.Some? && r.certIssuer.value !in view.retiredIssuers
  {
  }

  /** All have confirmed exactly if no record still spoken to is behind. */
  lemma ConfirmedExactly(records: seq<Record>, view: View)
    ensures Confirmed(records, view) <==>
              forall r | r in records && r.bundleVersion < view.bundle.body.version :: r.certSerial in view.bundle.body.revoked
  {
  }

  /** A node takes a chain exactly if every certificate of it is in date and unrevoked and it leads to a root of its bundle. */
  lemma ServerChainExactly(b: Body, leaf: Cert, issuer: Cert, now: int)
    ensures ServerChain(b, leaf, issuer, now) <==>
              && (forall c | c in {leaf, issuer} :: c.notBefore <= now <= c.notAfter && c.serial !in b.revoked)
              && issuer.isCA && leaf.signedBy == issuer.key
              && exists r :: && r in b.roots && r.isCA && issuer.signedBy == r.key
                             && r.notBefore <= now <= r.notAfter && r.serial !in b.revoked
  {
    forall i | 0 <= i < |b.roots|
      ensures ChainHit(b, [leaf, issuer, b.roots[i]]) <==>
                leaf.serial in b.revoked || issuer.serial in b.revoked || b.roots[i].serial in b.revoked
    {
      var chain := [leaf, issuer, b.roots[i]];
      assert chain[0] == leaf && chain[1] == issuer && chain[2] == b.roots[i];
    }
    hide ChainHit;
  }
}
