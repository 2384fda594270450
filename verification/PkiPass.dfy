/**
What one pass over the stored objects and each operator step compute, written
over the shapes the store can take: at most two roots, one active intermediate
that is the newest, and at most two signing keys.
*/
module PkiPass {
  import opened Wrappers
  import opened Seqs
  import opened PkiTypes
  import opened PkiCa

  // ---------- Shapes ----------

  predicate RootShape(roots: seq<Root>) {
    match |roots|
    case 0 => true
    case 1 => roots[0].state == RootActive
    case 2 =>
      || (roots[0].state == RootActive && roots[1].state == RootNext)
      || (roots[0].state == RootRetired && roots[1].state == RootActive)
    case _ => false
  }

  predicate IssuerShape(issuers: seq<Issuer>) {
    forall i | 0 <= i < |issuers| :: issuers[i].state == IssuerActive <==> i == |issuers| - 1
  }

  predicate KeyShape(keys: seq<SigningKey>) {
    match |keys|
    case 0 => true
    case 1 => keys[0].state == KeyActive
    case 2 =>
      || (keys[0].state == KeyActive && keys[1].state == KeyPending)
      || (keys[0].state == KeyRetired && keys[1].state == KeyActive)
    case _ => false
  }

  /** Identifiers grow with creation, so the stored order is the published order. */
  predicate KeysOrdered(keys: seq<SigningKey>) {
    forall i, j | 0 <= i < j < |keys| :: keys[i].id < keys[j].id
  }

  predicate BundlesOrdered(bundles: seq<Bundle>) {
    forall i, j | 0 <= i < j < |bundles| :: bundles[i].body.version < bundles[j].body.version
  }

  predicate DistinctSerials(revocations: seq<Revocation>) {
    forall i, j | 0 <= i < j < |revocations| :: revocations[i].serial != revocations[j].serial
  }

  predicate Shape(s: Store) {
    && RootShape(s.roots)
    && IssuerShape(s.issuers)
    && KeyShape(s.keys)
    && KeysOrdered(s.keys)
    && (forall i | 0 <= i < |s.keys| :: s.keys[i].id < s.unused)
    && BundlesOrdered(s.bundles)
    && |s.bundles| <= KEEP_BUNDLES
    && DistinctSerials(s.revocations)
    && (s.roots == [] ==> s.issuers == [] && s.keys == [])
    && (s.issuers == [] ==> s.roots == [])
  }

  // ---------- Roots ----------

  function ActiveRootIndex(roots: seq<Root>): nat
    requires RootShape(roots) && roots != []
  {
    if roots[|roots| - 1].state == RootActive then |roots| - 1 else 0
  }

  function ActiveRoot(roots: seq<Root>): Root
    requires RootShape(roots) && roots != []
  {
    roots[ActiveRootIndex(roots)]
  }

  /** The root of a rotation beside the active one. */
  function OtherRoot(roots: seq<Root>): Option<Root>
    requires RootShape(roots) && roots != []
  {
    if |roots| == 1 then None else Some(roots[1 - ActiveRootIndex(roots)])
  }

  function RootCerts(roots: seq<Root>): seq<Cert>
    requires RootShape(roots) && roots != []
  {
    [ActiveRoot(roots).cert] +
    match OtherRoot(roots)
    case Some(other) => [other.cert]
    case None => []
  }

  function RotationPhase(roots: seq<Root>): Phase
    requires RootShape(roots) && roots != []
  {
    match OtherRoot(roots)
    case None => PhaseNone
    case Some(other) => if other.state == RootNext then PhasePrepared else PhasePromoted
  }

  // ---------- Revocations ----------

  predicate RevocationLive(r: Revocation, now: int) {
    now <= r.notAfter + REVOCATION_KEEP
  }

  function LiveRevocations(revocations: seq<Revocation>, now: int): seq<Revocation> {
    Filter(revocations, (r: Revocation) => RevocationLive(r, now))
  }

  /** Saving under an identifier that exists replaces the recorded end. */
  function PutRevocation(revocations: seq<Revocation>, r: Revocation): seq<Revocation> {
    if revocations == [] then [r]
    else if revocations[0].serial == r.serial then [r] + revocations[1..]
    else [revocations[0]] + PutRevocation(revocations[1..], r)
  }

  function InsertSerial(serials: seq<nat>, serial: nat): (r: seq<nat>)
    ensures |r| == |serials| + 1
    ensures forall n :: n in r <==> n == serial || n in serials
  {
    if serials == [] || serial <= serials[0] then [serial] + serials
    else [serials[0]] + InsertSerial(serials[1..], serial)
  }

  /** The serials of a list of revocations, in order. */
  function SortedSerials(revocations: seq<Revocation>): seq<nat> {
    if revocations == [] then []
    else
      var last := |revocations| - 1;
      InsertSerial(SortedSerials(revocations[..last]), revocations[last].serial)
  }

  // ---------- Intermediates ----------

  datatype Renewal = Refused(error: PkiError) | Renewed(issuers: seq<Issuer>, unused: nat, blocked: bool)

  function Replaced(issuers: seq<Issuer>, state: IssuerState): seq<Issuer>
    requires issuers != []
  {
    var last := |issuers| - 1;
    issuers[last := issuers[last].(state := state)]
  }

  function Renew(root: Root, issuers: seq<Issuer>, unused: nat, now: int): (r: Renewal)
    requires IssuerShape(issuers)
    ensures r.Renewed? ==> r.issuers != [] && IssuerShape(r.issuers)
  {
    if issuers != [] && !RenewalDue(issuers[|issuers| - 1].cert, now) then
      Renewed(issuers, unused, false)
    else if !root.keyStored then
      if issuers == [] || now >= issuers[|issuers| - 1].cert.notAfter then Refused(RootUnavailable)
      else Renewed(issuers, unused, true)
    else
      match NewIntermediate(root.cert, unused, now)
      case Err(error) => Refused(error)
      case Ok(cert) =>
        var older := if issuers == [] then [] else Replaced(issuers, IssuerRetired);
        Renewed(older + [Issuer(cert, IssuerActive, now)], unused + 1, false)
  }

  predicate IssuerLive(issuer: Issuer, now: int) {
    issuer.state == IssuerActive || now <= issuer.cert.notAfter
  }

  function LiveIssuers(issuers: seq<Issuer>, now: int): (r: seq<Issuer>)
    ensures forall x :: x in r <==> x in issuers && IssuerLive(x, now)
  {
    Filter(issuers, (i: Issuer) => IssuerLive(i, now))
  }

  function Unrevoked(issuers: seq<Issuer>): (r: seq<Issuer>)
    ensures forall x :: x in r <==> x in issuers && x.state != IssuerRevoked
  {
    Filter(issuers, (i: Issuer) => i.state != IssuerRevoked)
  }

  /** The intermediates a bundle lists: all but the revoked ones. */
  function Listed(issuers: seq<Issuer>): (r: seq<Cert>)
    ensures forall c :: c in r <==> exists i :: i in issuers && i.state != IssuerRevoked && i.cert == c
  {
    var kept := Unrevoked(issuers);
    var certs := seq(|kept|, i requires 0 <= i < |kept| => kept[i].cert);
    assert forall x :: x in kept ==> x.cert in certs by {
      forall x | x in kept ensures x.cert in certs {
        var k :| 0 <= k < |kept| && kept[k] == x;
        assert certs[k] == x.cert;
      }
    }
    certs
  }

  // ---------- Signing keys ----------

  function NewKey(number: nat, state: KeyState, now: int): SigningKey {
    SigningKey(number, number, state, now, now + SIGNING_KEY_VALIDITY)
  }

  function ActiveKey(keys: seq<SigningKey>): SigningKey
    requires KeyShape(keys) && keys != []
  {
    if keys[|keys| - 1].state == KeyActive then keys[|keys| - 1] else keys[0]
  }

  datatype KeyChange = KeyChange(keys: seq<SigningKey>, unused: nat)

  /**
  The first key; then a successor beside it, its promotion once nodes had time
  to learn of it, and the end of the key it replaced.
  */
  function ManageKeys(keys: seq<SigningKey>, unused: nat, now: int): KeyChange
    requires KeyShape(keys)
  {
    if keys == [] then
      KeyChange([NewKey(unused, KeyActive, now)], unused + 1)
    else if keys[|keys| - 1].state == KeyPending then
      if now >= keys[1].created + SIGNING_PROMOTE_AFTER then
        KeyChange([keys[0].(state := KeyRetired), keys[1].(state := KeyActive)], unused)
      else
        KeyChange(keys, unused)
    else
      var active := keys[|keys| - 1];
      var overlapped := |keys| == 1 || now >= keys[0].notAfter || now >= active.created + SIGNING_OVERLAP;
      var kept := if overlapped then [active] else keys;
      if now >= active.created + SIGNING_ROTATE_AFTER then
        KeyChange(kept + [NewKey(unused, KeyPending, now)], unused + 1)
      else
        KeyChange(kept, unused)
  }

  function Entry(key: SigningKey): BundleKey {
    BundleKey(key.id, key.key, key.notAfter)
  }

  function Entries(keys: seq<SigningKey>): seq<BundleKey> {
    seq(|keys|, i requires 0 <= i < |keys| => Entry(keys[i]))
  }

  // ---------- The bundle ----------

  predicate SameTrust(a: Body, b: Body) {
    && a.roots == b.roots
    && a.intermediates == b.intermediates
    && a.keys == b.keys
    && a.revoked == b.revoked
  }

  function LastBundles(bundles: seq<Bundle>): seq<Bundle> {
    if |bundles| <= KEEP_BUNDLES then bundles else bundles[|bundles| - KEEP_BUNDLES..]
  }

  function Sign(body: Body, key: SigningKey): Bundle {
    Bundle(body, key.id, Signature(key.key, body))
  }

  function RetiredIssuers(b: Body, roots: seq<Root>): set<nat> {
    set i, j | 0 <= i < |b.intermediates| && 0 <= j < |roots| &&
               roots[j].state == RootRetired && SignedBy(b.intermediates[i], roots[j].cert)
      :: b.intermediates[i].serial
  }

  datatype PassResult =
    | PassRefused(error: PkiError)
    | Passed(store: Store, view: View, blocked: bool, published: Option<Bundle>)

  function WithRoot(s: Store, now: int): (t: Store)
    requires Shape(s)
    ensures RootShape(t.roots) && t.roots != []
    ensures t == s.(roots := t.roots, unused := t.unused)
  {
    if s.roots == [] then s.(roots := [Root(NewRoot(s.unused, now), RootActive, true)], unused := s.unused + 1)
    else s
  }

  function Desired(s: Store, now: int): Body
    requires RootShape(s.roots) && s.roots != []
  {
    var version := if s.bundles == [] then 1 else s.bundles[|s.bundles| - 1].body.version + 1;
    Body(version, now, RootCerts(s.roots), Listed(s.issuers), Entries(s.keys), SortedSerials(s.revocations))
  }

  /** The objects of a pass before its bundle, or why it stopped. */
  function Refreshed(s: Store, now: int): (r: Result<(Store, bool), PkiError>)
    requires Shape(s)
    ensures r.Ok? ==> RootShape(r.value.0.roots) && r.value.0.roots != []
    ensures r.Ok? ==> KeyShape(r.value.0.keys) && r.value.0.keys != []
    ensures r.Ok? ==> r.value.0.issuers != [] && r.value.0.bundles == s.bundles
  {
    var rooted := WithRoot(s, now);
    match Renew(ActiveRoot(rooted.roots), rooted.issuers, rooted.unused, now)
    case Refused(error) => Err(error)
    case Renewed(issuers, unused, blocked) =>
      var change := ManageKeys(rooted.keys, unused, now);
      assert issuers[|issuers| - 1] in LiveIssuers(issuers, now);
      Ok((Store(rooted.roots, LiveIssuers(issuers, now), change.keys,
                LiveRevocations(rooted.revocations, now), rooted.bundles, change.unused), blocked))
  }

  function MakeView(s: Store): View
    requires RootShape(s.roots) && s.roots != [] && s.bundles != [] && s.issuers != []
  {
    var bundle := s.bundles[|s.bundles| - 1];
    View(bundle, RotationPhase(s.roots), RetiredIssuers(bundle.body, s.roots), s.issuers[|s.issuers| - 1].cert)
  }

  /** The end of a pass: a bundle is published only when what nodes trust has changed. */
  function Finish(t: Store, blocked: bool, now: int): (r: PassResult)
    requires RootShape(t.roots) && t.roots != [] && KeyShape(t.keys) && t.keys != [] && t.issuers != []
  {
    var desired := Desired(t, now);
    if t.bundles == [] || !SameTrust(t.bundles[|t.bundles| - 1].body, desired) then
      var bundle := Sign(desired, ActiveKey(t.keys));
      var saved := t.(bundles := LastBundles(t.bundles + [bundle]));
      Passed(saved, MakeView(saved), blocked, Some(bundle))
    else
      Passed(t, MakeView(t), blocked, None)
  }

  /** One pass: it stops without a change, or renews what is due and publishes what changed. */
  function Pass(s: Store, now: int): (r: PassResult)
    requires Shape(s)
  {
    match Refreshed(s, now)
    case Err(error) => PassRefused(error)
    case Ok((t, blocked)) => Finish(t, blocked, now)
  }

  // ---------- Operator steps: what each saves ----------

  /** Nothing here revokes a root or the intermediate in use. */
  function SaveRevocation(s: Store, serial: nat, notAfter: Option<int>, now: int): (r: Result<Store, PkiError>)
    requires Shape(s)
  {
    if s.roots == [] then Err(NoRootYet)
    else if exists i :: 0 <= i < |s.roots| && s.roots[i].cert.serial == serial then Err(CannotRevokeRoot)
    else if exists i :: 0 <= i < |s.issuers| && s.issuers[i].cert.serial == serial && s.issuers[i].state == IssuerActive then
      Err(UseRotation)
    else if exists i :: 0 <= i < |s.revocations| && s.revocations[i].serial == serial then Ok(s)
    else if |s.revocations| >= MAX_REVOKED_SERIALS then Err(TooManyRevoked)
    else
      var end := if notAfter.Some? then notAfter.value else now + MAX_LEAF_VALIDITY;
      Ok(s.(revocations := s.revocations + [Revocation(serial, end)]))
  }

  function Retired(issuers: seq<Issuer>): seq<Issuer> {
    seq(|issuers|, i requires 0 <= i < |issuers| =>
      if issuers[i].state == IssuerActive then issuers[i].(state := IssuerRetired) else issuers[i])
  }

  function AllRevoked(issuers: seq<Issuer>): seq<Issuer> {
    seq(|issuers|, i requires 0 <= i < |issuers| => issuers[i].(state := IssuerRevoked))
  }

  function RevokeListed(issuers: seq<Issuer>, revocations: seq<Revocation>): seq<Revocation> {
    if issuers == [] then revocations
    else
      var last := |issuers| - 1;
      var earlier := RevokeListed(issuers[..last], revocations);
      if issuers[last].state == IssuerRevoked then earlier
      else PutRevocation(earlier, Revocation(issuers[last].cert.serial, issuers[last].cert.notAfter))
  }

  /** `brought` is a root key a person brought back for the occasion. */
  function SaveIntermediate(s: Store, brought: Option<nat>, revokePrevious: bool, now: int)
    : (r: Result<Store, PkiError>)
    requires Shape(s)
  {
    if s.roots == [] then Err(NoRootYet)
    else if !revokePrevious && |Listed(s.issuers)| + 1 > MAX_BUNDLE_ISSUERS then Err(TooManyIssuers)
    else
      var root := ActiveRoot(s.roots);
      if brought.Some? && brought.value != root.cert.key then Err(WrongRootKey)
      else if brought.None? && !root.keyStored then Err(RootUnavailable)
      else
        match NewIntermediate(root.cert, s.unused, now)
        case Err(error) => Err(error)
        case Ok(cert) =>
          var made := Issuer(cert, IssuerActive, now);
          if revokePrevious then
            Ok(s.(issuers := AllRevoked(s.issuers) + [made],
                  revocations := RevokeListed(s.issuers, s.revocations),
                  unused := s.unused + 1))
          else
            Ok(s.(issuers := Retired(s.issuers) + [made], unused := s.unused + 1))
  }

  function SaveNextRoot(s: Store, now: int): (r: Result<Store, PkiError>)
    requires Shape(s)
  {
    if s.roots == [] then Err(NoRootYet)
    else if |s.roots| == 2 then Err(RotationBusy)
    else Ok(s.(roots := s.roots + [Root(NewRoot(s.unused, now), RootNext, true)], unused := s.unused + 1))
  }

  function SavePromotion(s: Store, now: int): (r: Result<Store, PkiError>)
    requires Shape(s)
  {
    if s.roots == [] then Err(NoRootYet)
    else if RotationPhase(s.roots) != PhasePrepared then Err(NoRotation)
    else if |Listed(s.issuers)| + 1 > MAX_BUNDLE_ISSUERS then Err(TooManyIssuers)
    else
      var next := s.roots[1];
      if !next.keyStored then Err(RootUnavailable)
      else
        match NewIntermediate(next.cert, s.unused, now)
        case Err(error) => Err(error)
        case Ok(cert) =>
          Ok(s.(roots := [s.roots[0].(state := RootRetired), next.(state := RootActive)],
                issuers := Retired(s.issuers) + [Issuer(cert, IssuerActive, now)],
                unused := s.unused + 1))
  }

  function NotUnder(issuers: seq<Issuer>, root: Cert): seq<Issuer> {
    Filter(issuers, (i: Issuer) => !SignedBy(i.cert, root))
  }

  function SaveRetirement(s: Store): (r: Result<Store, PkiError>)
    requires Shape(s)
  {
    if s.roots == [] then Err(NoRootYet)
    else if RotationPhase(s.roots) != PhasePromoted then Err(NoRotation)
    else Ok(s.(roots := [s.roots[1]], issuers := NotUnder(s.issuers, s.roots[0].cert)))
  }

  /** The active root's key leaves the database, or comes back. */
  function SaveRootKey(s: Store, stored: bool): (r: Result<Store, PkiError>)
    requires Shape(s)
  {
    if s.roots == [] then Err(NoRootYet)
    else
      var at := ActiveRootIndex(s.roots);
      Ok(s.(roots := s.roots[at := s.roots[at].(keyStored := stored)]))
  }
}
