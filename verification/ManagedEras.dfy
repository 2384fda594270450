/**
Which root a node's certificate is under, told by when the certificate was issued.
The view signs with the older stored root until it shows a promotion, and from then
on with the one that stays.
*/
module ManagedEras {
  import opened Wrappers
  import opened PkiTypes
  import opened PkiPass
  import opened PkiWorld
  import opened PkiInvariant
  import opened PkiTracking
  import opened PkiView
  import opened ManagedNodes

  /**
  Certificate numbers grow. Below `turned` they were given out before the view last
  came to show a promotion; `since` is what `turned` was when a root was last dropped.
  */
  datatype Era = Era(since: nat, turned: nat)

  predicate Promoted(roots: seq<Root>)
    requires RootShape(roots)
  {
    roots != [] && RotationPhase(roots) == PhasePromoted
  }

  /** What a step makes of the era. */
  function NextEra(era: Era, before: World, after: World): Era {
    var kept := if |after.store.roots| < |before.store.roots| then Era(era.turned, era.turned) else era;
    if after.view.Some? && after.view.value.phase != PhasePromoted then kept.(turned := after.store.unused) else kept
  }

  /** The root above a node's certificate, by the number of the certificate. */
  predicate Sided(roots: seq<Root>, era: Era, n: Node)
    requires RootShape(roots)
  {
    && roots != []
    && if Promoted(roots) then
         && (SignedBy(n.issuer, roots[0].cert) <==> era.since <= n.leaf.serial < era.turned)
         && (SignedBy(n.issuer, roots[1].cert) <==> era.turned <= n.leaf.serial)
       else
         && (SignedBy(n.issuer, roots[0].cert) <==> era.since <= n.leaf.serial)
         && (|roots| == 2 ==> !SignedBy(n.issuer, roots[1].cert))
  }

  predicate EraOk(w: World, era: Era)
    requires RootShape(w.store.roots)
  {
    && era.since <= era.turned <= w.store.unused
    && (w.view.Some? && w.view.value.phase != PhasePromoted ==> era.turned == w.store.unused)
    && (w.view.Some? ==>
          && w.store.roots != []
          && SignedBy(w.view.value.issuer,
                      w.store.roots[if InPhase(w, PhasePromoted) && Promoted(w.store.roots) then 1 else 0].cert))
  }

  // ---------- What a step does to roots and view ----------

  predicate SameRoots(a: seq<Root>, b: seq<Root>) {
    |a| == |b| && forall i | 0 <= i < |a| :: a[i].cert == b[i].cert && a[i].state == b[i].state
  }

  /** Roots are kept, made, prepared, promoted or dropped; a promotion needs a prepared view and keeps it. */
  lemma RootsStep(w: World, e: Event)
    requires Inv(w) && InOrder(w, e)
    ensures Inv(Next(w, e)) && w.store.unused <= Next(w, e).store.unused
    ensures var a, b := w.store.roots, Next(w, e).store.roots;
            || SameRoots(a, b)
            || (a == [] && |b| == 1)
            || (|a| == 1 && |b| == 2 && SameRoots(a, b[..1]) && b[1].state == RootNext && b[1].cert.key >= w.store.unused)
            || (&& |a| == 2 && |b| == 2 && a[1].state == RootNext && b[1].state == RootActive
                && a[0].cert == b[0].cert && a[1].cert == b[1].cert
                && InPhase(w, PhasePrepared) && Next(w, e).view == w.view)
            || (&& |a| == 2 && a[1].state == RootActive && b == [a[1]]
                && InPhase(w, PhasePromoted) && Next(w, e).view == w.view && Next(w, e).store.unused == w.store.unused)
  {
    hide RootsOk, IssuersOk, KeysOk, LogOk, LinkOk, KeyShape, IssuerShape, BundlesOrdered, KeysOrdered, Refreshed, Finish, Listed,
         DistinctSerials, RevokeListed;
    NextKeepsInv(w, e);
    if e.PassRun? && Refreshed(w.store, e.now).Ok? {
      var unused := RefreshedParts(w.store, w.clock, e.now);
      var (t, blocked) := Refreshed(w.store, e.now).value;
      FinishKeepsRest(t, blocked, e.now);
    }
  }

  /** The view is kept, lost, or made by a pass over what is then stored. */
  lemma ViewStep(w: World, e: Event)
    requires Inv(w) && InOrder(w, e)
    ensures Inv(Next(w, e))
    ensures var w' := Next(w, e);
            || w'.view == w.view
            || w'.view.None?
            || (&& w'.store.roots != [] && w'.view.value.phase == RotationPhase(w'.store.roots)
                && SignedBy(w'.view.value.issuer, ActiveRoot(w'.store.roots).cert)
                && (w.store.roots != [] ==> w'.store.roots == w.store.roots))
  {
    hide RootsOk, IssuersOk, KeysOk, LogOk, LinkOk, KeyShape, IssuerShape, BundlesOrdered, KeysOrdered, Refreshed, Finish, Listed,
         DistinctSerials, RevokeListed, RootShape, SaveRevocation, SaveIntermediate, SaveNextRoot, SavePromotion, SaveRootKey,
         SaveRetirement;
    NextKeepsInv(w, e);
    if e.PassRun? && Refreshed(w.store, e.now).Ok? {
      RefreshedOk(w.store, w.clock, e.now);
      var unused := RefreshedParts(w.store, w.clock, e.now);
      var (t, blocked) := Refreshed(w.store, e.now).value;
      FinishKeepsRest(t, blocked, e.now);
      FinishedSays(t, blocked, e.now);
      ActiveRootAbove(t, e.now);
    }
  }

  /** The stored roots have different keys. */
  lemma RootsApart(s: Store, clock: int)
    requires StoreOk(s, clock)
    ensures |s.roots| == 2 ==> s.roots[0].cert.key != s.roots[1].cert.key
    ensures forall r | r in s.roots :: r.cert.isCA
  {
    hide IssuersOk, KeysOk, Shape;
    assert |s.roots| == 2 ==> s.roots[0].cert.serial < s.roots[1].cert.serial;
  }

  // ---------- Kept by every step ----------

  lemma NextEraOk(w: World, e: Event, era: Era)
    requires Inv(w) && InOrder(w, e) && EraOk(w, era)
    ensures Inv(Next(w, e)) && EraOk(Next(w, e), NextEra(era, w, Next(w, e)))
  {
    hide RootsOk, IssuersOk, KeysOk, LogOk, LinkOk, KeyShape, IssuerShape, BundlesOrdered, KeysOrdered, DistinctSerials, Next;
    RootsStep(w, e);
    ViewStep(w, e);
  }

  lemma NextSided(w: World, e: Event, era: Era, n: Node)
    requires Inv(w) && InOrder(w, e) && EraOk(w, era) && Sided(w.store.roots, era, n)
    requires n.leaf.serial < w.store.unused && n.issuer.signedBy < w.store.unused
    ensures Inv(Next(w, e)) && Sided(Next(w, e).store.roots, NextEra(era, w, Next(w, e)), n)
  {
    hide RootsOk, IssuersOk, KeysOk, LogOk, LinkOk, KeyShape, IssuerShape, BundlesOrdered, KeysOrdered, DistinctSerials, Next;
    RootsStep(w, e);
    ViewStep(w, e);
    RootsApart(w.store, w.clock);
    RootsApart(Next(w, e).store, Next(w, e).clock);
  }

  /** A certificate just issued by the view is on the view's side. */
  lemma FreshSided(w: World, era: Era, n: Node)
    requires Inv(w) && EraOk(w, era) && w.view.Some?
    requires n.issuer == w.view.value.issuer && n.leaf.serial == w.store.unused
    ensures Sided(w.store.roots, NextEra(era, w, Next(w, LeafIssued)), n)
  {
    hide RootsOk, IssuersOk, KeysOk, LogOk, LinkOk, KeyShape, IssuerShape, BundlesOrdered, KeysOrdered, DistinctSerials;
    RootsApart(w.store, w.clock);
  }
}
