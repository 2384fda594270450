/**
What the view of the last pass can be relied on for: whom it can certify, which
intermediates it puts under a retired root, and what its bundle says of every
intermediate ever issued.
*/
module PkiView {
  import opened Wrappers
  import opened PkiTypes
  import opened PkiCa
  import opened PkiPass
  import opened PkiWorld
  import opened PkiInvariant
  import opened PkiRevocation
  import opened PkiTracking

  /** A revocation asked for through the Control Tower names a serial that was given out. */
  predicate KnownSerial(w: World, e: Event) {
    e.RevocationSaved? ==> e.serial < w.store.unused
  }

  // ---------- Serials ----------

  /** Revoked serials were given out; no root's and not that of the intermediate in use is among them. */
  ghost predicate Apart(s: Store) {
    && (forall n: nat :: HasSerial(s.revocations, n) ==> n < s.unused)
    && (forall q | q in s.roots :: !HasSerial(s.revocations, q.cert.serial))
    && (s.issuers != [] ==> !HasSerial(s.revocations, s.issuers[|s.issuers| - 1].cert.serial))
    && (forall x, q | x in s.issuers && q in s.roots :: x.cert.serial != q.cert.serial)
  }

  lemma LiveHas(revocations: seq<Revocation>, now: int, n: nat)
    ensures HasSerial(LiveRevocations(revocations, now), n) ==> HasSerial(revocations, n)
  {
  }

  lemma RefreshedLast(s: Store, clock: int, now: int)
    requires StoreOk(s, clock) && clock <= now && Refreshed(s, now).Ok?
    ensures var t := Refreshed(s, now).value.0;
            var last := t.issuers[|t.issuers| - 1].cert;
            last.serial >= s.unused || (s.issuers != [] && last == s.issuers[|s.issuers| - 1].cert)
  {
    hide KeyShape, KeysOrdered, BundlesOrdered, DistinctSerials, ManageKeys, RootShape, RootsOk, IssuersOk, KeysOk, RenewalDue,
         LiveRevocations;
    var t := Refreshed(s, now).value.0;
    RefreshedOk(s, clock, now);
    var x := t.issuers[|t.issuers| - 1];
    assert x in t.issuers && x.state == IssuerActive;
    RefreshedIssuer(s, now, x);
    if x.cert.serial < s.unused {
      assert exists i :: 0 <= i < |s.issuers| && s.issuers[i].cert == x.cert && s.issuers[i].state == IssuerActive;
    }
  }

  lemma RefreshedApart(s: Store, clock: int, now: int)
    requires StoreOk(s, clock) && clock <= now && Refreshed(s, now).Ok? && Apart(s)
    ensures Apart(Refreshed(s, now).value.0)
  {
    hide KeyShape, KeysOrdered, BundlesOrdered, DistinctSerials, ManageKeys, IssuersOk, KeysOk, Refreshed, LiveRevocations,
         IssuerShape, HasSerial;
    var t := Refreshed(s, now).value.0;
    var unused := RefreshedParts(s, clock, now);
    RefreshedOk(s, clock, now);
    RefreshedLast(s, clock, now);
    forall n
      ensures HasSerial(t.revocations, n) ==> HasSerial(s.revocations, n)
    {
      LiveHas(s.revocations, now, n);
    }
    forall q | q in t.roots
      ensures (q in s.roots || q.cert.serial >= s.unused) && forall x | x in t.issuers :: x.cert.serial != q.cert.serial
    {
      if s.roots == [] {
        assert t.roots == [q];
      }
      forall x | x in t.issuers
        ensures x.cert.serial != q.cert.serial
      {
        RefreshedIssuer(s, now, x);
        AboveItsRoot(t, now, x);
      }
    }
    if s.issuers != [] {
      assert s.issuers[|s.issuers| - 1] in s.issuers;
    }
  }

  lemma AboveItsRoot(t: Store, now: int, x: Issuer)
    requires StoreOk(t, now) && x in t.issuers
    ensures |t.roots| == 1 ==> x.cert.serial != t.roots[0].cert.serial
  {
    hide RootShape, KeyShape, KeysOk, KeysOrdered, BundlesOrdered, DistinctSerials, IssuerShape;
    var k :| 0 <= k < |t.issuers| && t.issuers[k] == x;
    assert IssuerOk(t.issuers[k], t, now);
  }

  lemma RevocationApart(s: Store, serial: nat, notAfter: Option<int>, now: int)
    requires Shape(s) && Apart(s) && serial < s.unused && SaveRevocation(s, serial, notAfter, now).Ok?
    ensures Apart(SaveRevocation(s, serial, notAfter, now).value)
  {
    hide RootShape, KeyShape, KeysOrdered, BundlesOrdered, DistinctSerials;
    var t := SaveRevocation(s, serial, notAfter, now).value;
    forall n
      ensures HasSerial(t.revocations, n) ==> HasSerial(s.revocations, n) || (n == serial && t != s)
    {
    }
    forall q | q in s.roots
      ensures t == s || q.cert.serial != serial
    {
      var k :| 0 <= k < |s.roots| && s.roots[k] == q;
    }
  }

  /** The intermediates a step replaces keep their certificates. */
  lemma OlderApart(s: Store, older: seq<Issuer>, made: Issuer, t: Store)
    requires Apart(s) && |older| == |s.issuers| && (forall i | 0 <= i < |older| :: older[i].cert == s.issuers[i].cert)
    requires t.issuers == older + [made] && made.cert.serial >= s.unused && t.unused > made.cert.serial
    requires forall q | q in t.roots :: q.cert.serial < s.unused && exists p :: p in s.roots && p.cert == q.cert
    requires forall n :: HasSerial(t.revocations, n) ==> HasSerial(s.revocations, n) || Lists(s.issuers, n)
    requires forall x | x in s.issuers :: x.cert.serial < s.unused
    ensures Apart(t)
  {
    hide HasSerial;
    forall n: nat | HasSerial(t.revocations, n)
      ensures n < s.unused && forall q | q in t.roots :: q.cert.serial != n
    {
      if Lists(s.issuers, n) {
        var i :| 0 <= i < |s.issuers| && s.issuers[i].state != IssuerRevoked && s.issuers[i].cert.serial == n;
        assert s.issuers[i] in s.issuers;
      }
    }
    forall x, q | x in t.issuers && q in t.roots
      ensures x.cert.serial != q.cert.serial
    {
      if x != made {
        var k :| 0 <= k < |older| && older[k] == x;
        assert s.issuers[k] in s.issuers;
      }
    }
  }

  lemma KnownNumbers(s: Store, clock: int)
    requires StoreOk(s, clock)
    ensures forall x | x in s.issuers :: x.cert.serial < s.unused
    ensures forall q | q in s.roots :: q.cert.serial < s.unused
  {
    hide RootShape, KeyShape, KeysOk, KeysOrdered, BundlesOrdered, DistinctSerials, IssuerShape;
    forall x | x in s.issuers
      ensures x.cert.serial < s.unused
    {
      var k :| 0 <= k < |s.issuers| && s.issuers[k] == x;
      assert IssuerOk(s.issuers[k], s, clock);
    }
  }

  lemma IntermediateApart(s: Store, brought: Option<nat>, revokePrevious: bool, now: int)
    requires StoreOk(s, now) && Apart(s) && SaveIntermediate(s, brought, revokePrevious, now).Ok?
    ensures Apart(SaveIntermediate(s, brought, revokePrevious, now).value)
  {
    hide RootsOk, IssuersOk, KeysOk, KeyShape, RootShape, BundlesOrdered, KeysOrdered, DistinctSerials, Listed, IssuerShape,
         RevokeListed, HasSerial, Apart, Lists;
    var t := SaveIntermediate(s, brought, revokePrevious, now).value;
    KnownNumbers(s, now);
    SerialsGrowing(s, now);
    RevokeListedCounts(s.issuers, s.revocations);
    var older := if revokePrevious then AllRevoked(s.issuers) else Retired(s.issuers);
    var made := t.issuers[|t.issuers| - 1];
    OlderApart(s, older, made, t);
  }

  lemma PromotionApart(s: Store, now: int)
    requires StoreOk(s, now) && Apart(s) && SavePromotion(s, now).Ok?
    ensures Apart(SavePromotion(s, now).value)
  {
    hide RootsOk, IssuersOk, KeysOk, KeyShape, BundlesOrdered, KeysOrdered, DistinctSerials, Listed, IssuerShape, HasSerial, Apart;
    var t := SavePromotion(s, now).value;
    KnownNumbers(s, now);
    assert s.roots[0] in s.roots && s.roots[1] in s.roots;
    OlderApart(s, Retired(s.issuers), t.issuers[|t.issuers| - 1], t);
  }

  lemma NextRootApart(s: Store, now: int)
    requires StoreOk(s, now) && Apart(s) && SaveNextRoot(s, now).Ok?
    ensures Apart(SaveNextRoot(s, now).value)
  {
    hide RootsOk, IssuersOk, KeysOk, KeyShape, RootShape, BundlesOrdered, KeysOrdered, DistinctSerials, IssuerShape, HasSerial;
    KnownNumbers(s, now);
  }

  lemma RetirementApart(s: Store, now: int)
    requires StoreOk(s, now) && Apart(s) && SaveRetirement(s).Ok?
    ensures Apart(SaveRetirement(s).value)
  {
    hide RootsOk, IssuersOk, KeysOk, KeyShape, BundlesOrdered, KeysOrdered, DistinctSerials, HasSerial;
    RetirementStoreOk(s, now);
    var t := SaveRetirement(s).value;
    assert s.roots[1] in s.roots;
    if t.issuers != [] {
      var last := t.issuers[|t.issuers| - 1];
      assert last in t.issuers && last.state == IssuerActive;
      assert last == s.issuers[|s.issuers| - 1];
    }
  }

  lemma RootKeyApart(s: Store, stored: bool)
    requires Shape(s) && Apart(s) && SaveRootKey(s, stored).Ok?
    ensures Apart(SaveRootKey(s, stored).value)
  {
    hide KeyShape, BundlesOrdered, KeysOrdered, DistinctSerials, IssuerShape, HasSerial;
    var t := SaveRootKey(s, stored).value;
    forall q | q in t.roots
      ensures exists p :: p in s.roots && p.cert == q.cert
    {
      var k :| 0 <= k < |t.roots| && t.roots[k] == q;
      assert s.roots[k] in s.roots;
    }
  }

  lemma NextApart(w: World, e: Event)
    requires Inv(w) && InOrder(w, e) && KnownSerial(w, e) && Apart(w.store)
    ensures Shape(w.store) && Apart(Next(w, e).store)
  {
    hide RootsOk, IssuersOk, KeysOk, LogOk, LinkOk, KeyShape, RootShape, IssuerShape, BundlesOrdered, KeysOrdered, DistinctSerials,
         Refreshed, Finish, Apart, SaveRevocation, SaveIntermediate, SaveNextRoot, SavePromotion, SaveRetirement, SaveRootKey;
    match e
    case PassRun(now) =>
      if Refreshed(w.store, now).Ok? {
        RefreshedOk(w.store, w.clock, now);
        RefreshedApart(w.store, w.clock, now);
        var (t, blocked) := Refreshed(w.store, now).value;
        FinishKeepsRest(t, blocked, now);
        ApartFrame(t, Next(w, e).store);
      }
    case Restart =>
    case RevocationSaved(serial, notAfter, now) =>
      if SaveRevocation(w.store, serial, notAfter, now).Ok? {
        RevocationApart(w.store, serial, notAfter, now);
      }
    case IntermediateSaved(brought, revokePrevious, now) =>
      StoreOkLater(w.store, w.clock, now);
      if SaveIntermediate(w.store, brought, revokePrevious, now).Ok? {
        IntermediateApart(w.store, brought, revokePrevious, now);
      }
    case NextRootSaved(now) =>
      StoreOkLater(w.store, w.clock, now);
      if SaveNextRoot(w.store, now).Ok? {
        NextRootApart(w.store, now);
      }
    case PromotionSaved(now) =>
      StoreOkLater(w.store, w.clock, now);
      if SavePromotion(w.store, now).Ok? {
        PromotionApart(w.store, now);
      }
    case RetirementSaved =>
      if SaveRetirement(w.store).Ok? {
        RetirementApart(w.store, w.clock);
      }
    case RootKeySaved(stored) =>
      if SaveRootKey(w.store, stored).Ok? {
        RootKeyApart(w.store, stored);
      }
    case LeafIssued => ApartFrame(w.store, Next(w, e).store);
  }

  lemma ApartFrame(s: Store, t: Store)
    requires Apart(s) && t.roots == s.roots && t.issuers == s.issuers && t.revocations == s.revocations && s.unused <= t.unused
    ensures Apart(t)
  {
  }

  // ---------- What the view can certify ----------

  /** The intermediate of a view is listed, not revoked, not retired, and lies inside a listed root that is not revoked. */
  predicate CanSign(v: View) {
    var b := v.bundle.body;
    && v.issuer.isCA
    && v.issuer in b.intermediates
    && v.issuer.serial !in v.retiredIssuers
    && v.issuer.serial !in b.revoked
    && (forall k | 0 <= k < |b.roots| :: b.roots[k].serial !in b.revoked)
    && exists k :: 0 <= k < |b.roots| && SignedBy(v.issuer, b.roots[k]) && Within(v.issuer, b.roots[k])
  }

  predicate ViewSigns(w: World) {
    w.view.Some? ==>
      && CanSign(w.view.value)
      && w.view.value.issuer.notBefore <= w.clock
      && w.view.value.issuer.signedBy < w.store.unused
      && forall n | n in w.view.value.bundle.body.revoked :: n < w.store.unused
  }

  lemma ActiveRootAbove(t: Store, now: int)
    requires StoreOk(t, now) && t.roots != [] && t.issuers != []
    ensures var c := t.issuers[|t.issuers| - 1].cert;
            c.isCA && c.notBefore <= now && c.signedBy < t.unused
            && SignedBy(c, ActiveRoot(t.roots).cert) && Within(c, ActiveRoot(t.roots).cert)
  {
    hide KeysOk, KeyShape, BundlesOrdered, KeysOrdered, DistinctSerials, IssuerShape;
    var c := t.issuers[|t.issuers| - 1].cert;
    assert IssuerOk(t.issuers[|t.issuers| - 1], t, now);
    assert |t.roots| == 2 ==> t.roots[0].cert.serial < t.roots[1].cert.serial;
    var i :| 0 <= i < |t.roots| && t.roots[i].state != RootNext && SignedBy(c, t.roots[i].cert) && Within(c, t.roots[i].cert);
    assert i == ActiveRootIndex(t.roots);
  }

  lemma SameSerialSameIssuer(t: Store, c: Cert, now: int)
    requires StoreOk(t, now) && t.roots != [] && t.issuers != []
    requires c in Listed(t.issuers) && c.serial == t.issuers[|t.issuers| - 1].cert.serial
    ensures c == t.issuers[|t.issuers| - 1].cert
  {
    hide KeysOk, RootsOk, RootShape, KeyShape, BundlesOrdered, KeysOrdered, DistinctSerials, Listed, IssuerShape;
    SerialsGrowing(t, now);
    var x :| x in t.issuers && x.state != IssuerRevoked && x.cert == c;
    var k :| 0 <= k < |t.issuers| && t.issuers[k] == x;
  }

  /** The intermediate in use is not one of those under a retired root. */
  lemma IssuerNotRetired(t: Store, b: Body, now: int)
    requires StoreOk(t, now) && t.roots != [] && t.issuers != [] && b.intermediates == Listed(t.issuers)
    ensures t.issuers[|t.issuers| - 1].cert.serial !in RetiredIssuers(b, t.roots)
  {
    hide KeysOk, KeyShape, BundlesOrdered, KeysOrdered, DistinctSerials, Anchored, Listed, IssuerShape;
    ActiveRootAbove(t, now);
    var last := t.issuers[|t.issuers| - 1].cert;
    assert |t.roots| == 2 ==> t.roots[0].cert.serial < t.roots[1].cert.serial;
    if last.serial in RetiredIssuers(b, t.roots) {
      var i, j :| 0 <= i < |b.intermediates| && 0 <= j < |t.roots| && t.roots[j].state == RootRetired
                  && SignedBy(b.intermediates[i], t.roots[j].cert) && b.intermediates[i].serial == last.serial;
      assert b.intermediates[i] in Listed(t.issuers);
      SameSerialSameIssuer(t, b.intermediates[i], now);
    }
  }

  lemma PassSigns(w: World, t: Store, blocked: bool, now: int)
    requires StoreOk(t, now) && t.roots != [] && t.keys != [] && t.issuers != [] && Apart(t)
    ensures ViewSigns(After(w, Finish(t, blocked, now), now))
  {
    hide RootsOk, IssuersOk, KeysOk, KeyShape, BundlesOrdered, KeysOrdered, DistinctSerials, Finish, Listed, SortedSerials,
         RetiredIssuers, HasSerial;
    FinishedSays(t, blocked, now);
    FinishKeepsRest(t, blocked, now);
    PublishedSerials(t.revocations);
    ActiveRootAbove(t, now);
    var v := Finish(t, blocked, now).view;
    var b, last := v.bundle.body, |t.issuers| - 1;
    IssuerNotRetired(t, b, now);
    assert t.issuers[last] in t.issuers && t.issuers[last].cert in Listed(t.issuers);
    assert b.roots[0] == ActiveRoot(t.roots).cert;
    forall k | 0 <= k < |b.roots|
      ensures b.roots[k].serial !in b.revoked
    {
      RootOfBundle(t.roots, b.roots[k]);
      var q :| q in t.roots && q.cert == b.roots[k];
    }
  }

  lemma RootOfBundle(roots: seq<Root>, c: Cert)
    requires RootShape(roots) && roots != [] && c in RootCerts(roots)
    ensures exists q :: q in roots && q.cert == c
  {
  }

  lemma NextSigns(w: World, e: Event)
    requires Inv(w) && InOrder(w, e) && Apart(w.store) && ViewSigns(w)
    ensures Shape(w.store) && ViewSigns(Next(w, e))
  {
    hide RootsOk, IssuersOk, KeysOk, LogOk, LinkOk, KeyShape, RootShape, IssuerShape, BundlesOrdered, KeysOrdered, DistinctSerials,
         Refreshed, Finish, Apart, CanSign, SaveRevocation, SaveIntermediate, SaveNextRoot, SavePromotion, SaveRootKey;
    if e.PassRun? && Refreshed(w.store, e.now).Ok? {
      RefreshedOk(w.store, w.clock, e.now);
      RefreshedApart(w.store, w.clock, e.now);
      var (t, blocked) := Refreshed(w.store, e.now).value;
      PassSigns(w, t, blocked, e.now);
    } else if !e.PassRun? && !e.RetirementSaved? {
      SavedIssuers(w, e);
    }
  }

  // ---------- What the view puts under a retired root ----------

  /** While a rotation is promoted the bundle lists the retired root, and the view names whatever it lists under it. */
  predicate ViewLists(w: World)
    requires RootShape(w.store.roots)
  {
    InPhase(w, PhasePromoted) && w.store.roots != [] && RotationPhase(w.store.roots) == PhasePromoted ==>
      var v := w.view.value;
      && w.store.roots[0].cert in v.bundle.body.roots
      && forall c | c in v.bundle.body.intermediates && SignedBy(c, w.store.roots[0].cert) :: c.serial in v.retiredIssuers
  }

  lemma PassLists(w: World, t: Store, blocked: bool, now: int)
    requires RootShape(t.roots) && t.roots != [] && KeyShape(t.keys) && t.keys != [] && t.issuers != []
    ensures var w' := After(w, Finish(t, blocked, now), now);
            RootShape(w'.store.roots) && ViewLists(w')
  {
    hide Listed, SortedSerials, KeyShape, Finish;
    FinishedSays(t, blocked, now);
    FinishKeepsRest(t, blocked, now);
    var v := Finish(t, blocked, now).view;
    if RotationPhase(t.roots) == PhasePromoted {
      forall c | c in v.bundle.body.intermediates && SignedBy(c, t.roots[0].cert)
        ensures c.serial in v.retiredIssuers
      {
        var k :| 0 <= k < |v.bundle.body.intermediates| && v.bundle.body.intermediates[k] == c;
        assert t.roots[0].state == RootRetired;
      }
    }
  }

  lemma NextLists(w: World, e: Event)
    requires Inv(w) && InOrder(w, e) && ViewLists(w)
    ensures Shape(w.store) && RootShape(Next(w, e).store.roots) && ViewLists(Next(w, e))
  {
    hide RootsOk, IssuersOk, KeysOk, LogOk, LinkOk, KeyShape, IssuerShape, BundlesOrdered, KeysOrdered, Refreshed, Finish, Listed,
         DistinctSerials, RevokeListed, NewIntermediate;
    if e.PassRun? && Refreshed(w.store, e.now).Ok? {
      RefreshedOk(w.store, w.clock, e.now);
      var (t, blocked) := Refreshed(w.store, e.now).value;
      PassLists(w, t, blocked, e.now);
    }
  }

  // ---------- What the latest bundle says of an intermediate ----------

  /** It has run out, no listed root signed it, or the latest bundle lists or revokes it. */
  ghost predicate BundleTracks(w: World, c: Cert) {
    && w.log != []
    && var b := Latest(w).body;
       || c.notAfter < w.clock
       || (forall k | 0 <= k < |b.roots| :: b.roots[k].key != c.signedBy)
       || c in b.intermediates
       || c.serial in b.revoked
  }

  lemma PassTracks(t: Store, blocked: bool, now: int, c: Cert)
    requires RootShape(t.roots) && t.roots != [] && KeyShape(t.keys) && t.keys != [] && t.issuers != []
    requires RevokedRecorded(t) && Tracked(t, c, now)
    ensures var b := Finish(t, blocked, now).view.bundle.body;
            || c.notAfter < now
            || (forall k | 0 <= k < |b.roots| :: b.roots[k].key != c.signedBy)
            || c in b.intermediates
            || c.serial in b.revoked
  {
    hide Listed, SortedSerials, KeyShape, Finish, RetiredIssuers;
    FinishedSays(t, blocked, now);
    PublishedSerials(t.revocations);
    var b := Finish(t, blocked, now).view.bundle.body;
    if exists x :: x in t.issuers && x.cert == c {
      var x :| x in t.issuers && x.cert == c;
      if x.state == IssuerRevoked {
        var k :| 0 <= k < |t.issuers| && t.issuers[k] == x;
        assert HasSerial(t.revocations, c.serial);
      }
    } else if forall r | r in t.roots :: r.cert.key != c.signedBy {
      forall k | 0 <= k < |b.roots|
        ensures b.roots[k].key != c.signedBy
      {
        RootOfBundle(t.roots, b.roots[k]);
      }
    }
  }

  lemma NextBundleTracks(w: World, e: Event, c: Cert)
    requires Inv(w) && InOrder(w, e) && RevokedRecorded(w.store) && BundleTracks(w, c)
    requires Tracked(w.store, c, w.clock) && c.signedBy < w.store.unused
    ensures Shape(w.store) && BundleTracks(Next(w, e), c)
  {
    hide RootsOk, IssuersOk, KeysOk, LogOk, KeyShape, RootShape, IssuerShape, BundlesOrdered, KeysOrdered, Refreshed, Finish, Listed,
         DistinctSerials, RevokeListed, NewIntermediate, RevokedRecorded, Tracked, LastBundles, Entries,
         SaveRevocation, SaveIntermediate, SaveNextRoot, SavePromotion, SaveRootKey, SaveRetirement;
    NextKeepsInv(w, e);
    if e.PassRun? && Refreshed(w.store, e.now).Ok? {
      RefreshedOk(w.store, w.clock, e.now);
      RefreshedRecorded(w.store, w.clock, e.now);
      RefreshedTracks(w.store, c, w.clock, e.now);
      var (t, blocked) := Refreshed(w.store, e.now).value;
      FinishedSays(t, blocked, e.now);
      PassTracks(t, blocked, e.now, c);
    }
  }
}
