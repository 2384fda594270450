/**
The objects of the Control Tower's certificate authority. Times are seconds on
one monotone clock. Keys and serial numbers are numbers, a certificate's
fingerprint is the certificate itself, and a signature is the key that made it
together with what it covers.
*/
module PkiTypes {
  const DAY := 86400
  const CLOCK_SKEW := 300

  const ROOT_VALIDITY := 3650 * DAY
  const INTERMEDIATE_VALIDITY := 730 * DAY
  const DEFAULT_LEAF_VALIDITY := 90 * DAY
  const MIN_LEAF_VALIDITY := 7 * DAY
  const MAX_LEAF_VALIDITY := 180 * DAY

  const SIGNING_KEY_VALIDITY := 90 * DAY
  const SIGNING_ROTATE_AFTER := 60 * DAY
  const SIGNING_PROMOTE_AFTER := 7 * DAY
  const SIGNING_OVERLAP := 14 * DAY
  const REVOCATION_KEEP := DAY

  const MAX_BUNDLE_ROOTS := 2
  const MAX_BUNDLE_ISSUERS := 2
  const MAX_BUNDLE_KEYS := 16
  const MAX_REVOKED_SERIALS := 1024
  const KEEP_BUNDLES := 5

  /** `key` is the subject's key and `signedBy` the key that signed. */
  datatype Cert = Cert(serial: nat, key: nat, signedBy: nat, isCA: bool, notBefore: int, notAfter: int)

  predicate SignedBy(child: Cert, parent: Cert) {
    parent.isCA && child.signedBy == parent.key
  }

  /** The validity window of `inner` lies inside that of `outer`. */
  predicate Within(inner: Cert, outer: Cert) {
    outer.notBefore <= inner.notBefore && inner.notAfter <= outer.notAfter
  }

  datatype BundleKey = BundleKey(id: nat, key: nat, notAfter: int)

  /** Everything a bundle says; what its signature covers. */
  datatype Body = Body(
    version: int,
    issuedAt: int,
    roots: seq<Cert>,
    intermediates: seq<Cert>,
    keys: seq<BundleKey>,
    revoked: seq<nat>)

  datatype Signature = Signature(signer: nat, over: Body)

  datatype Bundle = Bundle(body: Body, keyId: nat, signature: Signature)

  datatype RootState = RootActive | RootNext | RootRetired
  datatype Root = Root(cert: Cert, state: RootState, keyStored: bool)

  datatype IssuerState = IssuerActive | IssuerRetired | IssuerRevoked
  datatype Issuer = Issuer(cert: Cert, state: IssuerState, created: int)

  datatype KeyState = KeyActive | KeyPending | KeyRetired
  datatype SigningKey = SigningKey(id: nat, key: nat, state: KeyState, created: int, notAfter: int)

  datatype Revocation = Revocation(serial: nat, notAfter: int)

  /**
  The stored objects, by kind and oldest first. `unused` is a number no serial,
  key or identifier has used yet.
  */
  datatype Store = Store(
    roots: seq<Root>,
    issuers: seq<Issuer>,
    keys: seq<SigningKey>,
    revocations: seq<Revocation>,
    bundles: seq<Bundle>,
    unused: nat)

  const EMPTY_STORE := Store([], [], [], [], [], 0)

  datatype Phase = PhaseNone | PhasePrepared | PhasePromoted

  /** What a completed pass leaves in memory. */
  datatype View = View(bundle: Bundle, phase: Phase, retiredIssuers: set<nat>, issuer: Cert)

  datatype PkiError =
    | RootUnavailable
    | RootTooShort
    | WrongRootKey
    | NoRootYet
    | NoRotation
    | RotationBusy
    | TooManyIssuers
    | UseRotation
    | CannotRevokeRoot
    | TooManyRevoked
}
