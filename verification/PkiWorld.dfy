/**
The authority over time. A pass and what an operator step saves are separate
events, so a run covers a process that stops between the two. `log` holds every
bundle ever published; the view is lost when the process restarts.
*/
module PkiWorld {
  import opened Wrappers
  import opened PkiTypes
  import opened PkiPass

  datatype World = World(
    store: Store,
    view: Option<View>,
    log: seq<Bundle>,
    clock: int,
    lastPass: Option<int>)

  function Start(clock: int): World {
    World(EMPTY_STORE, None, [], clock, None)
  }

  datatype Event =
    | PassRun(now: int)
    | Restart
    | RevocationSaved(serial: nat, notAfter: Option<int>, now: int)
    | IntermediateSaved(brought: Option<nat>, revokePrevious: bool, now: int)
    | NextRootSaved(now: int)
    | PromotionSaved(now: int)
    | RetirementSaved
    | RootKeySaved(stored: bool)
    | LeafIssued

  predicate InOrder(w: World, e: Event) {
    match e
    case PassRun(now) => w.clock <= now
    case RevocationSaved(_, _, now) => w.clock <= now
    case IntermediateSaved(_, _, now) => w.clock <= now
    case NextRootSaved(now) => w.clock <= now
    case PromotionSaved(now) => w.clock <= now
    case _ => true
  }

  function AfterSave(w: World, saved: Result<Store, PkiError>, now: int): World {
    match saved
    case Ok(store) => w.(store := store, clock := now)
    case Err(_) => w.(clock := now)
  }

  function AfterPass(w: World, now: int): World
    requires Shape(w.store)
  {
    After(w, Pass(w.store, now), now)
  }

  function After(w: World, pass: PassResult, now: int): World {
    match pass
    case PassRefused(_) => w.(clock := now)
    case Passed(store, view, _, published) =>
      World(store, Some(view),
            if published.Some? then w.log + [published.value] else w.log,
            now, Some(now))
  }

  predicate InPhase(w: World, phase: Phase) {
    w.view.Some? && w.view.value.phase == phase
  }

  /**
  Promotion and retirement are asked for only when the view of the last pass
  shows a prepared, or a promoted, rotation.
  */
  function Next(w: World, e: Event): World
    requires Shape(w.store)
  {
    match e
    case PassRun(now) => AfterPass(w, now)
    case Restart => w.(view := None)
    case RevocationSaved(serial, notAfter, now) => AfterSave(w, SaveRevocation(w.store, serial, notAfter, now), now)
    case IntermediateSaved(brought, revokePrevious, now) =>
      AfterSave(w, SaveIntermediate(w.store, brought, revokePrevious, now), now)
    case NextRootSaved(now) => AfterSave(w, SaveNextRoot(w.store, now), now)
    case PromotionSaved(now) =>
      if InPhase(w, PhasePrepared) then AfterSave(w, SavePromotion(w.store, now), now) else w
    case RetirementSaved =>
      if InPhase(w, PhasePromoted) then AfterSave(w, SaveRetirement(w.store), w.clock) else w
    case RootKeySaved(stored) => AfterSave(w, SaveRootKey(w.store, stored), w.clock)
    case LeafIssued => w.(store := w.store.(unused := w.store.unused + 1))
  }

  // ---------- What every reachable state satisfies ----------

  predicate RootsOk(s: Store, clock: int) {
    && (forall i | 0 <= i < |s.roots| ::
          var c := s.roots[i].cert;
          c.isCA && c.signedBy == c.key && c.serial == c.key && c.serial < s.unused &&
          c.notBefore <= clock - CLOCK_SKEW && c.notAfter == c.notBefore + CLOCK_SKEW + ROOT_VALIDITY)
    && (forall i, j | 0 <= i < j < |s.roots| ::
          s.roots[i].cert.serial < s.roots[j].cert.serial && s.roots[i].cert.notAfter <= s.roots[j].cert.notAfter)
  }

  /** A root that signs, or signed, issued this certificate inside its own window. */
  predicate Anchored(c: Cert, roots: seq<Root>) {
    exists i :: 0 <= i < |roots| && roots[i].state != RootNext && SignedBy(c, roots[i].cert) && Within(c, roots[i].cert)
  }

  predicate IssuerOk(issuer: Issuer, s: Store, clock: int) {
    && issuer.cert.isCA
    && issuer.cert.serial == issuer.cert.key
    && issuer.cert.signedBy < issuer.cert.key < s.unused
    && issuer.created <= clock
    && issuer.cert.notBefore == issuer.created - CLOCK_SKEW
    && issuer.cert.notAfter == issuer.created + INTERMEDIATE_VALIDITY
    && Anchored(issuer.cert, s.roots)
  }

  /** Newer intermediates have larger serials, and once the active root signs only it does. */
  predicate Follows(earlier: Issuer, later: Issuer, active: Cert) {
    && earlier.cert.serial < later.cert.serial
    && earlier.created <= later.created
    && (SignedBy(earlier.cert, active) ==> SignedBy(later.cert, active))
  }

  predicate IssuersOk(s: Store, clock: int)
    requires RootShape(s.roots)
  {
    && (forall i | 0 <= i < |s.issuers| :: IssuerOk(s.issuers[i], s, clock))
    && (s.roots != [] ==>
          && (forall i, j | 0 <= i < j < |s.issuers| :: Follows(s.issuers[i], s.issuers[j], ActiveRoot(s.roots).cert))
          && (s.issuers != [] ==> SignedBy(s.issuers[|s.issuers| - 1].cert, ActiveRoot(s.roots).cert)))
  }

  predicate KeysOk(s: Store, clock: int) {
    && (forall i | 0 <= i < |s.keys| ::
          && s.keys[i].created <= clock
          && s.keys[i].notAfter == s.keys[i].created + SIGNING_KEY_VALIDITY)
    && (|s.keys| == 2 ==> s.keys[1].created >= s.keys[0].created + SIGNING_ROTATE_AFTER)
  }

  predicate LogOk(log: seq<Bundle>, clock: int) {
    && (forall i | 0 <= i < |log| :: log[i].body.version == i + 1 && log[i].body.issuedAt <= clock)
    && (forall i, j | 0 <= i < j < |log| :: log[i].body.issuedAt <= log[j].body.issuedAt)
  }

  function Latest(w: World): Bundle
    requires w.log != []
  {
    w.log[|w.log| - 1]
  }

  predicate LinkOk(w: World)
    requires RootShape(w.store.roots)
  {
    && (w.store.roots == [] <==> w.log == [])
    && (w.store.keys == [] <==> w.log == [])
    && w.store.bundles == LastBundles(w.log)
    && (w.log == [] ==> w.view.None?)
    && (w.log != [] ==>
          && Latest(w).body.keys == Entries(w.store.keys)
          && ActiveRoot(w.store.roots).cert in Latest(w).body.roots
          && (w.view.Some? ==> w.view.value.bundle == Latest(w))
          && (InPhase(w, PhasePrepared) ==> |w.store.roots| == 2 && w.store.roots[1].cert in Latest(w).body.roots))
  }

  predicate StoreOk(s: Store, clock: int) {
    && Shape(s)
    && RootsOk(s, clock)
    && IssuersOk(s, clock)
    && KeysOk(s, clock)
  }

  predicate Inv(w: World) {
    && StoreOk(w.store, w.clock)
    && LogOk(w.log, w.clock)
    && LinkOk(w)
  }
}
