/** Where an intermediate can be once it has been issued. */
module PkiTracking {
  import opened Wrappers
  import opened PkiTypes
  import opened PkiCa
  import opened PkiPass
  import opened PkiWorld
  import opened PkiInvariant
  import opened PkiRevocation

  /** A revoked intermediate is in the revocation list for as long as it is stored. */
  predicate RevokedRecorded(s: Store) {
    forall i | 0 <= i < |s.issuers| && s.issuers[i].state == IssuerRevoked ::
      KeptUntil(s.revocations, s.issuers[i].cert.serial, s.issuers[i].cert.notAfter)
  }

  /** An issued intermediate is stored, or has run out, or no root is left that signed it. */
  ghost predicate Tracked(s: Store, c: Cert, clock: int) {
    || c.notAfter < clock
    || (forall r | r in s.roots :: r.cert.key != c.signedBy)
    || (exists x :: x in s.issuers && x.cert == c)
  }

  // ---------- Revoked intermediates stay recorded ----------

  lemma {:induction false} RevokeListedRecords(issuers: seq<Issuer>, revocations: seq<Revocation>, k: nat)
    requires DistinctSerials(revocations) && k < |issuers| && SerialsGrow(issuers)
    requires issuers[k].state == IssuerRevoked ==> KeptUntil(revocations, issuers[k].cert.serial, issuers[k].cert.notAfter)
    ensures KeptUntil(RevokeListed(issuers, revocations), issuers[k].cert.serial, issuers[k].cert.notAfter)
  {
    var last := |issuers| - 1;
    var before := issuers[..last];
    RevokeListedDistinct(before, revocations);
    var serial, until := issuers[k].cert.serial, issuers[k].cert.notAfter;
    if k < last {
      RevokeListedRecords(before, revocations, k);
      assert before[k] == issuers[k] && serial < issuers[last].cert.serial;
    } else if issuers[last].state == IssuerRevoked {
      RevokeListedKeeps(before, revocations, serial, until);
    }
    if issuers[last].state != IssuerRevoked {
      PutKeepsUntil(RevokeListed(before, revocations),
                    Revocation(issuers[last].cert.serial, issuers[last].cert.notAfter), serial, until);
    }
  }

  lemma IntermediateRecorded(s: Store, brought: Option<nat>, revokePrevious: bool, now: int)
    requires StoreOk(s, now) && RevokedRecorded(s) && SaveIntermediate(s, brought, revokePrevious, now).Ok?
    ensures RevokedRecorded(SaveIntermediate(s, brought, revokePrevious, now).value)
  {
    hide RootsOk, IssuersOk, KeysOk, KeyShape, RootShape, BundlesOrdered, KeysOrdered, Listed, IssuerShape, KeptUntil, RevokeListed;
    var t := SaveIntermediate(s, brought, revokePrevious, now).value;
    SerialsGrowing(s, now);
    forall i | 0 <= i < |t.issuers| && t.issuers[i].state == IssuerRevoked
      ensures KeptUntil(t.revocations, t.issuers[i].cert.serial, t.issuers[i].cert.notAfter)
    {
      if revokePrevious {
        RevokeListedRecords(s.issuers, s.revocations, i);
      }
    }
  }

  lemma RefreshedRecorded(s: Store, clock: int, now: int)
    requires StoreOk(s, clock) && clock <= now && Refreshed(s, now).Ok? && RevokedRecorded(s)
    ensures RevokedRecorded(Refreshed(s, now).value.0)
  {
    hide RootsOk, IssuersOk, KeysOk, KeyShape, RootShape, BundlesOrdered, KeysOrdered, ManageKeys, Refreshed, KeptUntil, LiveRevocations;
    var unused := RefreshedParts(s, clock, now);
    var t := Refreshed(s, now).value.0;
    forall i | 0 <= i < |t.issuers| && t.issuers[i].state == IssuerRevoked
      ensures KeptUntil(t.revocations, t.issuers[i].cert.serial, t.issuers[i].cert.notAfter)
    {
      var x := t.issuers[i];
      assert x in t.issuers;
      RefreshedRevoked(s, now, x);
      var k :| 0 <= k < |s.issuers| && s.issuers[k] == x;
      LiveKeepsUntil(s.revocations, x.cert.serial, x.cert.notAfter, now);
    }
  }

  lemma RefreshedRevoked(s: Store, now: int, x: Issuer)
    requires Shape(s) && Refreshed(s, now).Ok?
    requires x in Refreshed(s, now).value.0.issuers && x.state == IssuerRevoked
    ensures x in s.issuers
  {
    hide KeyShape, KeysOrdered, BundlesOrdered, DistinctSerials, ManageKeys, RootShape;
    var rooted := WithRoot(s, now);
    var r := Renew(ActiveRoot(rooted.roots), rooted.issuers, rooted.unused, now);
    assert x in r.issuers;
    if r.issuers != s.issuers {
      var k :| 0 <= k < |r.issuers| && r.issuers[k] == x;
      assert k < |r.issuers| - 2;
      assert x == s.issuers[k];
    }
  }

  lemma NextRecorded(w: World, e: Event)
    requires Inv(w) && InOrder(w, e) && RevokedRecorded(w.store)
    ensures Shape(w.store) && RevokedRecorded(Next(w, e).store)
  {
    hide RootsOk, IssuersOk, KeysOk, LogOk, LinkOk, KeyShape, RootShape, BundlesOrdered, KeysOrdered, Refreshed,
         Finish, Listed;
    if e.PassRun? && Refreshed(w.store, e.now).Ok? {
      RefreshedOk(w.store, w.clock, e.now);
      RefreshedRecorded(w.store, w.clock, e.now);
      var (t, blocked) := Refreshed(w.store, e.now).value;
      FinishKeepsRest(t, blocked, e.now);
    } else if e.IntermediateSaved? && SaveIntermediate(w.store, e.brought, e.revokePrevious, e.now).Ok? {
      StoreOkLater(w.store, w.clock, e.now);
      IntermediateRecorded(w.store, e.brought, e.revokePrevious, e.now);
    } else if e.RetirementSaved? && InPhase(w, PhasePromoted) && SaveRetirement(w.store).Ok? {
      var kept := SaveRetirement(w.store).value.issuers;
      forall i | 0 <= i < |kept| && kept[i].state == IssuerRevoked
        ensures KeptUntil(w.store.revocations, kept[i].cert.serial, kept[i].cert.notAfter)
      {
        assert kept[i] in w.store.issuers;
      }
    }
  }

  // ---------- Tracking one intermediate ----------

  lemma RenewKeepsCert(root: Root, issuers: seq<Issuer>, unused: nat, now: int, k: nat)
    requires IssuerShape(issuers) && k < |issuers| && Renew(root, issuers, unused, now).Renewed?
    ensures k < |Renew(root, issuers, unused, now).issuers| && Renew(root, issuers, unused, now).issuers[k].cert == issuers[k].cert
  {
    hide IssuerShape, RenewalDue;
  }

  lemma RefreshedTracks(s: Store, c: Cert, clock: int, now: int)
    requires StoreOk(s, clock) && clock <= now && Refreshed(s, now).Ok?
    requires Tracked(s, c, clock) && c.signedBy < s.unused
    ensures Tracked(Refreshed(s, now).value.0, c, now)
  {
    hide RootsOk, IssuersOk, KeysOk, KeyShape, RootShape, BundlesOrdered, KeysOrdered, ManageKeys, DistinctSerials, IssuerShape, Renew,
         ActiveRoot, LiveRevocations;
    var t := Refreshed(s, now).value.0;
    var rooted := WithRoot(s, now);
    var r := Renew(ActiveRoot(rooted.roots), rooted.issuers, rooted.unused, now);
    if now <= c.notAfter && exists x :: x in s.issuers && x.cert == c {
      var x :| x in s.issuers && x.cert == c;
      var k :| 0 <= k < |s.issuers| && s.issuers[k] == x;
      RenewKeepsCert(ActiveRoot(rooted.roots), s.issuers, rooted.unused, now, k);
      assert r.issuers[k] in r.issuers && IssuerLive(r.issuers[k], now);
      assert r.issuers[k] in t.issuers;
    } else if now <= c.notAfter {
      assert forall root | root in t.roots :: root.cert.key != c.signedBy;
    }
  }

  lemma NextTracks(w: World, e: Event, c: Cert)
    requires Inv(w) && InOrder(w, e) && Tracked(w.store, c, w.clock) && c.signedBy < w.store.unused
    ensures Shape(w.store) && Tracked(Next(w, e).store, c, Next(w, e).clock) && c.signedBy < Next(w, e).store.unused
  {
    hide RootsOk, IssuersOk, KeysOk, LogOk, LinkOk, KeyShape, BundlesOrdered, KeysOrdered, Refreshed, Finish, Listed,
         Tracked;
    if e.PassRun? && Refreshed(w.store, e.now).Ok? {
      RefreshedOk(w.store, w.clock, e.now);
      var unused := RefreshedParts(w.store, w.clock, e.now);
      RefreshedTracks(w.store, c, w.clock, e.now);
      var (t, blocked) := Refreshed(w.store, e.now).value;
      FinishKeepsRest(t, blocked, e.now);
      TrackedFrame(t, t.(bundles := Next(w, e).store.bundles), c, e.now, e.now);
    } else if e.RetirementSaved? {
      RetirementTracks(w, c);
    } else if !e.PassRun? {
      SavedTracks(w, e, c);
    } else {
      TrackedFrame(w.store, w.store, c, w.clock, e.now);
    }
  }

  lemma TrackedFrame(s: Store, t: Store, c: Cert, clock: int, now: int)
    requires Tracked(s, c, clock) && clock <= now
    requires forall r | r in t.roots :: (exists q :: q in s.roots && q.cert == r.cert) || r.cert.key != c.signedBy
    requires forall x | x in s.issuers && x.cert == c :: exists y :: y in t.issuers && y.cert == c
    ensures Tracked(t, c, now)
  {
  }

  /** The same intermediates, perhaps in other states, and maybe one more. */
  lemma SameCertsTrack(s: Store, t: Store, c: Cert)
    requires |s.issuers| <= |t.issuers|
    requires forall i | 0 <= i < |s.issuers| :: t.issuers[i].cert == s.issuers[i].cert
    ensures forall x | x in s.issuers && x.cert == c :: exists y :: y in t.issuers && y.cert == c
  {
    forall x | x in s.issuers && x.cert == c
      ensures exists y :: y in t.issuers && y.cert == c
    {
      var k :| 0 <= k < |s.issuers| && s.issuers[k] == x;
      assert t.issuers[k] in t.issuers && t.issuers[k].cert == c;
    }
  }

  lemma SavedIssuers(w: World, e: Event)
    requires Inv(w) && InOrder(w, e) && !e.PassRun? && !e.RetirementSaved?
    ensures |w.store.issuers| <= |Next(w, e).store.issuers|
    ensures forall i | 0 <= i < |w.store.issuers| :: Next(w, e).store.issuers[i].cert == w.store.issuers[i].cert
    ensures w.store.unused <= Next(w, e).store.unused && w.clock <= Next(w, e).clock
  {
    hide RootsOk, IssuersOk, KeysOk, LogOk, LinkOk, RootShape, KeyShape, IssuerShape, BundlesOrdered, KeysOrdered, Listed,
         DistinctSerials, NewIntermediate, RevokeListed;
  }

  lemma SavedRoots(w: World, e: Event, r: Root)
    requires Inv(w) && InOrder(w, e) && !e.PassRun? && !e.RetirementSaved? && r in Next(w, e).store.roots
    ensures (exists q :: q in w.store.roots && q.cert == r.cert) || r.cert.key >= w.store.unused
  {
    hide RootsOk, IssuersOk, KeysOk, LogOk, LinkOk, KeyShape, IssuerShape, BundlesOrdered, KeysOrdered, Listed,
         DistinctSerials, NewIntermediate, RevokeListed, Retired, AllRevoked;
    var t := Next(w, e).store;
    var k :| 0 <= k < |t.roots| && t.roots[k] == r;
    if k < |w.store.roots| {
      assert w.store.roots[k] in w.store.roots && w.store.roots[k].cert == r.cert;
    }
  }

  lemma SavedTracks(w: World, e: Event, c: Cert)
    requires Inv(w) && InOrder(w, e) && Tracked(w.store, c, w.clock) && c.signedBy < w.store.unused
    requires !e.PassRun? && !e.RetirementSaved?
    ensures Tracked(Next(w, e).store, c, Next(w, e).clock) && c.signedBy < Next(w, e).store.unused
  {
    hide RootsOk, IssuersOk, KeysOk, LogOk, LinkOk, RootShape, KeyShape, IssuerShape, BundlesOrdered, KeysOrdered,
         DistinctSerials, Tracked, Next, InOrder;
    var s, t := w.store, Next(w, e).store;
    SavedIssuers(w, e);
    SameCertsTrack(s, t, c);
    forall r | r in t.roots
      ensures (exists q :: q in s.roots && q.cert == r.cert) || r.cert.key != c.signedBy
    {
      SavedRoots(w, e, r);
    }
    TrackedFrame(s, t, c, w.clock, Next(w, e).clock);
  }

  lemma RetirementTracks(w: World, c: Cert)
    requires Inv(w) && Tracked(w.store, c, w.clock)
    ensures Tracked(Next(w, RetirementSaved).store, c, w.clock)
  {
    hide IssuersOk, KeysOk, LogOk, LinkOk, KeyShape, BundlesOrdered, KeysOrdered, Listed, DistinctSerials;
    var s, t := w.store, Next(w, RetirementSaved).store;
    if t != s {
      assert s.roots[0].cert.key != s.roots[1].cert.key;
      if exists x :: x in s.issuers && x.cert == c {
        var x :| x in s.issuers && x.cert == c;
        if !SignedBy(c, s.roots[0].cert) {
          assert x in t.issuers;
        }
      }
    }
  }

  // ---------- What a pass publishes ----------

  /** The bundle of a view says the same as what the pass wanted. */
  lemma FinishedSays(t: Store, blocked: bool, now: int)
    requires RootShape(t.roots) && t.roots != [] && KeyShape(t.keys) && t.keys != [] && t.issuers != []
    ensures var pass := Finish(t, blocked, now);
            && pass.Passed? && pass.view.phase == RotationPhase(t.roots)
            && pass.view.bundle.body.intermediates == Listed(t.issuers)
            && pass.view.bundle.body.roots == RootCerts(t.roots)
            && pass.view.bundle.body.revoked == SortedSerials(t.revocations)
            && pass.view.retiredIssuers == RetiredIssuers(pass.view.bundle.body, t.roots)
            && pass.view.issuer == t.issuers[|t.issuers| - 1].cert
  {
    hide Listed, RootCerts, RotationPhase, RetiredIssuers, SortedSerials, ActiveKey, RootShape, KeyShape, LastBundles;
    LastOfAppend(t.bundles, Sign(Desired(t, now), ActiveKey(t.keys)));
  }
}
