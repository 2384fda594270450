/** Every event keeps what the authority relies on. */
module PkiInvariant {
  import opened Wrappers
  import opened Seqs
  import opened PkiTypes
  import opened PkiCa
  import opened PkiPass
  import opened PkiWorld

  lemma StartInv(clock: int)
    ensures Inv(Start(clock))
  {
  }

  // ---------- Lists ----------

  lemma LiveRevocationsDistinct(revocations: seq<Revocation>, now: int)
    requires DistinctSerials(revocations)
    ensures DistinctSerials(LiveRevocations(revocations, now))
  {
    var keep := (r: Revocation) => RevocationLive(r, now);
    var differ := (a: Revocation, b: Revocation) => a.serial != b.serial;
    FilterPairwise(revocations, keep, differ);
    assert Pairwise(Filter(revocations, keep), differ);
  }

  /** A filter that keeps the newest intermediate keeps the shape and order of the list. */
  lemma FilteredIssuersOk(s: Store, kept: seq<Issuer>, keep: Issuer -> bool, clock: int)
    requires RootShape(s.roots) && IssuerShape(s.issuers) && s.roots != [] && s.issuers != []
    requires IssuersOk(s, clock)
    requires kept == Filter(s.issuers, keep)
    requires keep(s.issuers[|s.issuers| - 1])
    ensures kept != [] && kept[|kept| - 1] == s.issuers[|s.issuers| - 1]
    ensures IssuerShape(kept) && IssuersOk(s.(issuers := kept), clock)
  {
    var active := ActiveRoot(s.roots).cert;
    var follows := (a: Issuer, b: Issuer) => Follows(a, b, active) && a.state != IssuerActive;
    FilterPairwise(s.issuers, keep, follows);
    assert Pairwise(kept, follows);
    forall i | 0 <= i < |kept|
      ensures IssuerOk(kept[i], s.(issuers := kept), clock)
    {
      assert kept[i] in s.issuers;
    }
    forall i, j | 0 <= i < j < |kept|
      ensures Follows(kept[i], kept[j], active) && kept[i].state != IssuerActive
    {
      assert follows(kept[i], kept[j]);
    }
  }

  lemma {:induction false} PutKeepsDistinct(revocations: seq<Revocation>, r: Revocation)
    requires DistinctSerials(revocations)
    ensures DistinctSerials(PutRevocation(revocations, r))
    ensures r in PutRevocation(revocations, r)
    ensures forall x | x in PutRevocation(revocations, r) :: x == r || (x in revocations && x.serial != r.serial)
    ensures forall x | x in revocations && x.serial != r.serial :: x in PutRevocation(revocations, r)
    ensures |revocations| <= |PutRevocation(revocations, r)| <= |revocations| + 1
  {
    if revocations != [] && revocations[0].serial != r.serial {
      var rest := revocations[1..];
      PutKeepsDistinct(rest, r);
      var put := PutRevocation(rest, r);
      assert PutRevocation(revocations, r) == [revocations[0]] + put;
      forall j | 0 <= j < |put|
        ensures put[j].serial != revocations[0].serial
      {
        assert put[j] in put;
      }
    }
  }

  lemma {:induction false} RevokeListedDistinct(issuers: seq<Issuer>, revocations: seq<Revocation>)
    requires DistinctSerials(revocations)
    ensures DistinctSerials(RevokeListed(issuers, revocations))
  {
    if issuers != [] {
      var last := |issuers| - 1;
      RevokeListedDistinct(issuers[..last], revocations);
      PutKeepsDistinct(RevokeListed(issuers[..last], revocations),
                       Revocation(issuers[last].cert.serial, issuers[last].cert.notAfter));
    }
  }

  // ---------- One pass ----------

  /** A new intermediate under a root that signs joins at the end of a list with no active one. */
  lemma AppendedIssuerOk(s: Store, older: seq<Issuer>, roots: seq<Root>, cert: Cert, now: int)
    requires RootShape(roots) && roots != []
    requires RootsOk(s.(roots := roots), now)
    requires NewIntermediate(ActiveRoot(roots).cert, s.unused, now) == Ok(cert)
    requires forall i | 0 <= i < |older| :: older[i].state != IssuerActive && IssuerOk(older[i], s.(roots := roots), now)
    requires forall i, j | 0 <= i < j < |older| :: Follows(older[i], older[j], ActiveRoot(roots).cert)
    ensures var t := s.(roots := roots, issuers := older + [Issuer(cert, IssuerActive, now)], unused := s.unused + 1);
            IssuerShape(t.issuers) && IssuersOk(t, now)
  {
    var at := ActiveRootIndex(roots);
    assert SignedBy(cert, roots[at].cert) && Within(cert, roots[at].cert);
    var t := s.(roots := roots, issuers := older + [Issuer(cert, IssuerActive, now)], unused := s.unused + 1);
    assert Anchored(cert, roots);
    forall i | 0 <= i < |t.issuers|
      ensures IssuerOk(t.issuers[i], t, now)
    {
    }
  }

  lemma WithRootOk(s: Store, clock: int, now: int)
    requires Shape(s) && RootsOk(s, clock) && IssuersOk(s, clock) && clock <= now
    ensures var t := WithRoot(s, now); RootsOk(t, now) && IssuersOk(t, now) && t.unused >= s.unused
  {
  }

  lemma RenewOk(s: Store, now: int)
    requires RootShape(s.roots) && s.roots != [] && IssuerShape(s.issuers)
    requires RootsOk(s, now) && IssuersOk(s, now)
    requires Renew(ActiveRoot(s.roots), s.issuers, s.unused, now).Renewed?
    ensures var r := Renew(ActiveRoot(s.roots), s.issuers, s.unused, now);
            && r.unused >= s.unused
            && r.issuers != []
            && IssuersOk(s.(issuers := r.issuers, unused := r.unused), now)
            && now < r.issuers[|r.issuers| - 1].cert.notAfter
  {
    hide RootsOk, IssuersOk, ActiveRoot, RootShape;
    var root := ActiveRoot(s.roots);
    var r := Renew(root, s.issuers, s.unused, now);
    if r.unused != s.unused {
      var cert := NewIntermediate(root.cert, s.unused, now).value;
      var older := if s.issuers == [] then [] else Replaced(s.issuers, IssuerRetired);
      assert r.issuers == older + [Issuer(cert, IssuerActive, now)];
      OlderOk(s, older, now);
      AppendedIssuerOk(s, older, s.roots, cert, now);
      assert s.(roots := s.roots, issuers := r.issuers, unused := r.unused) == s.(issuers := r.issuers, unused := r.unused);
    } else {
      assert r.issuers == s.issuers;
      assert s == s.(issuers := r.issuers, unused := r.unused);
      LastInOrder(s, now);
    }
  }

  lemma LastInOrder(s: Store, now: int)
    requires RootShape(s.roots) && IssuersOk(s, now) && s.issuers != []
    ensures var c := s.issuers[|s.issuers| - 1].cert; c.notBefore < c.notAfter
  {
    hide RootShape, Anchored;
    assert IssuerOk(s.issuers[|s.issuers| - 1], s, now);
  }

  lemma ManageKeysOk(keys: seq<SigningKey>, unused: nat, clock: int, now: int)
    requires KeyShape(keys) && KeysOrdered(keys)
    requires forall i | 0 <= i < |keys| :: keys[i].id < unused
    requires KeysOk(EMPTY_STORE.(keys := keys), clock) && clock <= now
    ensures var c := ManageKeys(keys, unused, now);
            && c.keys != [] && KeyShape(c.keys) && KeysOrdered(c.keys)
            && c.unused >= unused
            && (forall i | 0 <= i < |c.keys| :: c.keys[i].id < c.unused)
            && KeysOk(EMPTY_STORE.(keys := c.keys), now)
  {
  }

  lemma LiveIssuersOk(s: Store, now: int)
    requires RootShape(s.roots) && s.roots != [] && s.issuers != [] && IssuerShape(s.issuers)
    requires IssuersOk(s, now)
    ensures var live := LiveIssuers(s.issuers, now);
            && live != [] && live[|live| - 1] == s.issuers[|s.issuers| - 1]
            && IssuerShape(live) && IssuersOk(s.(issuers := live), now)
  {
    FilteredIssuersOk(s, LiveIssuers(s.issuers, now), (i: Issuer) => IssuerLive(i, now), now);
  }

  /** Larger unused numbers and other lists leave the intermediates as they were. */
  lemma IssuersOkFrame(s: Store, t: Store, clock: int)
    requires RootShape(s.roots) && IssuersOk(s, clock)
    requires t.roots == s.roots && t.issuers == s.issuers && s.unused <= t.unused
    ensures IssuersOk(t, clock)
  {
    forall i | 0 <= i < |t.issuers|
      ensures IssuerOk(t.issuers[i], t, clock)
    {
      assert IssuerOk(s.issuers[i], s, clock);
    }
  }

  /** What a pass works on before its bundle. */
  lemma RefreshedOk(s: Store, clock: int, now: int)
    requires StoreOk(s, clock) && clock <= now
    requires Refreshed(s, now).Ok?
    ensures var t := Refreshed(s, now).value.0;
            && StoreOk(t, now)
            && t.roots == WithRoot(s, now).roots
            && now < t.issuers[|t.issuers| - 1].cert.notAfter
  {
    hide RootsOk, IssuersOk, KeysOk, KeysOrdered, RootShape, KeyShape, IssuerShape, DistinctSerials, BundlesOrdered,
         ManageKeys, Renew, WithRoot, ActiveRoot, LiveRevocations;
    var rooted := WithRoot(s, now);
    WithRootOk(s, clock, now);
    RenewOk(rooted, now);
    var r := Renew(ActiveRoot(rooted.roots), rooted.issuers, rooted.unused, now);
    var renewed := rooted.(issuers := r.issuers, unused := r.unused);
    KeysOkFrame(s, EMPTY_STORE.(keys := s.keys), clock);
    ManageKeysOk(s.keys, r.unused, clock, now);
    LiveRevocationsDistinct(s.revocations, now);
    LiveIssuersOk(renewed, now);
    var t := Refreshed(s, now).value.0;
    IssuersOkFrame(renewed.(issuers := t.issuers), t, now);
    RootsOkFrame(rooted, t, now);
    KeysOkFrame(EMPTY_STORE.(keys := t.keys), t, now);
  }

  lemma RootsOkFrame(s: Store, t: Store, clock: int)
    requires RootsOk(s, clock) && t.roots == s.roots && s.unused <= t.unused
    ensures RootsOk(t, clock)
  {
  }

  lemma KeysOkFrame(s: Store, t: Store, clock: int)
    requires KeysOk(s, clock) && t.keys == s.keys
    ensures KeysOk(t, clock)
  {
  }

  /** A pass changes nothing after its objects are refreshed but the list of bundles. */
  lemma FinishKeepsRest(t: Store, blocked: bool, now: int)
    requires RootShape(t.roots) && t.roots != [] && KeyShape(t.keys) && t.keys != [] && t.issuers != []
    ensures var pass := Finish(t, blocked, now);
            pass.Passed? && pass.store == t.(bundles := pass.store.bundles)
  {
    hide Desired, MakeView, SameTrust;
  }

  /** Where the keys, revocations and intermediates of a pass come from. */
  lemma RefreshedParts(s: Store, clock: int, now: int) returns (unused: nat)
    requires StoreOk(s, clock) && clock <= now
    requires Refreshed(s, now).Ok?
    ensures var t := Refreshed(s, now).value.0;
            && s.unused <= unused <= t.unused
            && t.keys == ManageKeys(s.keys, unused, now).keys
            && t.revocations == LiveRevocations(s.revocations, now)
            && (s.roots != [] ==> t.roots == s.roots)
            && (s.roots == [] ==> |t.roots| == 1)
    ensures forall x | x in Refreshed(s, now).value.0.issuers :: now <= x.cert.notAfter
  {
    hide RootsOk, IssuersOk, KeysOk, RootShape, KeyShape, KeysOrdered, DistinctSerials, BundlesOrdered, ManageKeys, Renew, ActiveRoot,
         LiveRevocations;
    var rooted := WithRoot(s, now);
    WithRootOk(s, clock, now);
    RenewOk(rooted, now);
    var r := Renew(ActiveRoot(rooted.roots), rooted.issuers, rooted.unused, now);
    unused := r.unused;
    KeysOkFrame(s, EMPTY_STORE.(keys := s.keys), clock);
    ManageKeysOk(s.keys, r.unused, clock, now);
    var live := LiveIssuers(r.issuers, now);
    forall x | x in live
      ensures now <= x.cert.notAfter
    {
      assert x in r.issuers && IssuerLive(x, now);
      if x.state == IssuerActive {
        assert x == r.issuers[|r.issuers| - 1];
      }
    }
  }

  lemma LastBundlesAppend(log: seq<Bundle>, b: Bundle)
    ensures LastBundles(LastBundles(log) + [b]) == LastBundles(log + [b])
  {
  }

  lemma LastBundlesOrdered(log: seq<Bundle>, clock: int)
    requires LogOk(log, clock)
    ensures BundlesOrdered(LastBundles(log)) && |LastBundles(log)| <= KEEP_BUNDLES
  {
  }

  lemma AppendedLog(log: seq<Bundle>, b: Bundle, clock: int, now: int)
    requires LogOk(log, clock) && clock <= now
    requires b.body.version == |log| + 1 && b.body.issuedAt == now
    ensures LogOk(log + [b], now)
  {
  }

  lemma SameLast(log: seq<Bundle>)
    ensures LastBundles(log) == [] <==> log == []
    ensures log != [] ==> LastBundles(log)[|LastBundles(log)| - 1] == log[|log| - 1]
  {
  }

  /** The bundle a pass publishes, if any, is the next version and becomes the latest. */
  lemma FinishKeepsLog(w: World, t: Store, blocked: bool, now: int)
    requires RootShape(t.roots) && t.roots != [] && KeyShape(t.keys) && t.keys != [] && t.issuers != []
    requires LogOk(w.log, w.clock) && w.clock <= now && t.bundles == LastBundles(w.log)
    ensures var w' := After(w, Finish(t, blocked, now), now);
            && LogOk(w'.log, now) && w'.log != []
            && w'.store == t.(bundles := LastBundles(w'.log))
            && SameTrust(Latest(w').body, Desired(t, now))
            && w'.view == Some(MakeView(w'.store))
            && w'.view.value.bundle == Latest(w')
  {
    hide RootShape, KeyShape, RootCerts, Listed, SortedSerials, Entries, RotationPhase, RetiredIssuers, ActiveKey,
         LastBundles;
    var pass := Finish(t, blocked, now);
    SameLast(w.log);
    if pass.published.Some? {
      var b := pass.published.value;
      LastBundlesAppend(w.log, b);
      AppendedLog(w.log, b, w.clock, now);
      SameLast(w.log + [b]);
    } else {
      assert LogOk(w.log, now);
    }
  }

  lemma FinishKeepsLink(w': World, t: Store, now: int)
    requires RootShape(t.roots) && t.roots != [] && t.keys != [] && t.issuers != []
    requires w'.log != [] && w'.store == t.(bundles := LastBundles(w'.log))
    requires SameTrust(Latest(w').body, Desired(t, now))
    requires w'.view == Some(MakeView(w'.store)) && w'.view.value.bundle == Latest(w')
    ensures LinkOk(w')
  {
    assert ActiveRoot(t.roots).cert == RootCerts(t.roots)[0];
    if RotationPhase(t.roots) == PhasePrepared {
      assert t.roots[1].cert == RootCerts(t.roots)[1];
    }
  }

  lemma StoreOkLater(s: Store, clock: int, now: int)
    requires StoreOk(s, clock) && clock <= now
    ensures StoreOk(s, now)
  {
    forall i | 0 <= i < |s.issuers|
      ensures IssuerOk(s.issuers[i], s, now)
    {
      assert IssuerOk(s.issuers[i], s, clock);
    }
  }

  lemma StoreOkBundles(t: Store, bundles: seq<Bundle>, now: int)
    requires StoreOk(t, now) && BundlesOrdered(bundles) && |bundles| <= KEEP_BUNDLES
    ensures StoreOk(t.(bundles := bundles), now)
  {
    IssuersOkFrame(t, t.(bundles := bundles), now);
  }

  lemma PassKeepsInv(w: World, now: int)
    requires Inv(w) && w.clock <= now
    ensures Inv(AfterPass(w, now))
  {
    hide RootsOk, IssuersOk, KeysOk, Finish, Refreshed, Desired, MakeView, SameTrust, KeyShape, KeysOrdered,
         IssuerShape;
    if Refreshed(w.store, now).Err? {
      StoreOkLater(w.store, w.clock, now);
    } else {
      RefreshedOk(w.store, w.clock, now);
      var (t, blocked) := Refreshed(w.store, now).value;
      var w' := AfterPass(w, now);
      FinishKeepsLog(w, t, blocked, now);
      FinishKeepsLink(w', t, now);
      LastBundlesOrdered(w'.log, now);
      StoreOkBundles(t, w'.store.bundles, now);
    }
  }

  // ---------- Operator steps ----------

  /** A saved step leaves keys and bundles alone, so only the roots matter to the link. */
  lemma SavedKeepsInv(w: World, s: Store, now: int)
    requires Inv(w) && w.clock <= now && w.log != []
    requires StoreOk(s, now) && s.roots != []
    requires s.keys == w.store.keys && s.bundles == w.store.bundles
    requires ActiveRoot(s.roots).cert in Latest(w).body.roots
    requires InPhase(w, PhasePrepared) ==> |s.roots| == 2 && s.roots[1].cert in Latest(w).body.roots
    ensures Inv(w.(store := s, clock := now))
  {
    hide RootsOk, IssuersOk, KeysOk;
  }

  lemma ClockKeepsInv(w: World, now: int)
    requires Inv(w) && w.clock <= now
    ensures Inv(w.(clock := now))
  {
    hide RootsOk, IssuersOk, KeysOk;
    StoreOkLater(w.store, w.clock, now);
  }

  /** Changing only states keeps every fact about the certificates of a list. */
  lemma OlderOk(s: Store, older: seq<Issuer>, now: int)
    requires RootShape(s.roots) && s.roots != [] && IssuersOk(s, now)
    requires |older| == |s.issuers|
    requires forall i | 0 <= i < |older| :: older[i].cert == s.issuers[i].cert && older[i].created == s.issuers[i].created
    ensures forall i | 0 <= i < |older| :: IssuerOk(older[i], s, now)
    ensures forall i, j | 0 <= i < j < |older| :: Follows(older[i], older[j], ActiveRoot(s.roots).cert)
  {
    forall i | 0 <= i < |older|
      ensures IssuerOk(older[i], s, now)
    {
      assert IssuerOk(s.issuers[i], s, now);
    }
    forall i, j | 0 <= i < j < |older|
      ensures Follows(older[i], older[j], ActiveRoot(s.roots).cert)
    {
      assert Follows(s.issuers[i], s.issuers[j], ActiveRoot(s.roots).cert);
    }
  }

  lemma RevocationStoreOk(s: Store, serial: nat, notAfter: Option<int>, now: int)
    requires StoreOk(s, now)
    requires SaveRevocation(s, serial, notAfter, now).Ok?
    ensures StoreOk(SaveRevocation(s, serial, notAfter, now).value, now)
  {
    hide RootShape, IssuerShape, KeyShape, KeysOrdered, BundlesOrdered, IssuerOk, Follows;
    var t := SaveRevocation(s, serial, notAfter, now).value;
    IssuersOkFrame(s, t, now);
  }

  lemma IntermediateStoreOk(s: Store, brought: Option<nat>, revokePrevious: bool, now: int)
    requires StoreOk(s, now)
    requires SaveIntermediate(s, brought, revokePrevious, now).Ok?
    ensures StoreOk(SaveIntermediate(s, brought, revokePrevious, now).value, now)
  {
    hide RootShape, KeyShape, KeysOrdered, BundlesOrdered, IssuerOk, Follows, DistinctSerials, Listed;
    var t := SaveIntermediate(s, brought, revokePrevious, now).value;
    var cert := NewIntermediate(ActiveRoot(s.roots).cert, s.unused, now).value;
    var older := if revokePrevious then AllRevoked(s.issuers) else Retired(s.issuers);
    assert t.issuers == older + [Issuer(cert, IssuerActive, now)];
    OlderOk(s, older, now);
    AppendedIssuerOk(s, older, s.roots, cert, now);
    IssuersOkFrame(s.(issuers := t.issuers, unused := s.unused + 1), t, now);
    RevokeListedDistinct(s.issuers, s.revocations);
  }

  lemma NextRootStoreOk(s: Store, now: int)
    requires StoreOk(s, now)
    requires SaveNextRoot(s, now).Ok?
    ensures StoreOk(SaveNextRoot(s, now).value, now)
  {
    hide IssuerShape, KeyShape, KeysOrdered, BundlesOrdered, DistinctSerials;
    var t := SaveNextRoot(s, now).value;
    forall i | 0 <= i < |t.issuers|
      ensures IssuerOk(t.issuers[i], t, now)
    {
      assert IssuerOk(s.issuers[i], s, now);
      assert t.roots[0] == s.roots[0];
    }
  }

  /** Nothing was signed by the next root yet, so the new chain follows everything before it. */
  lemma PromotedOlderOk(s: Store, roots: seq<Root>, older: seq<Issuer>, now: int)
    requires RootShape(s.roots) && |s.roots| == 2 && s.roots[0].state == RootActive
    requires RootsOk(s, now) && IssuersOk(s, now)
    requires roots == [s.roots[0].(state := RootRetired), s.roots[1].(state := RootActive)]
    requires older == Retired(s.issuers)
    ensures forall i | 0 <= i < |older| :: IssuerOk(older[i], s.(roots := roots), now)
    ensures forall i, j | 0 <= i < j < |older| :: Follows(older[i], older[j], roots[1].cert)
  {
    forall i | 0 <= i < |older|
      ensures IssuerOk(older[i], s.(roots := roots), now) && !SignedBy(older[i].cert, roots[1].cert)
    {
      assert IssuerOk(s.issuers[i], s, now);
      assert SignedBy(older[i].cert, s.roots[0].cert) && Within(older[i].cert, s.roots[0].cert);
      assert roots[0].cert == s.roots[0].cert;
    }
    forall i, j | 0 <= i < j < |older|
      ensures Follows(older[i], older[j], roots[1].cert)
    {
      assert Follows(s.issuers[i], s.issuers[j], ActiveRoot(s.roots).cert);
    }
  }

  lemma PromotionStoreOk(s: Store, now: int)
    requires StoreOk(s, now)
    requires SavePromotion(s, now).Ok?
    ensures StoreOk(SavePromotion(s, now).value, now)
  {
    hide KeyShape, KeysOrdered, BundlesOrdered, DistinctSerials, IssuerOk, Follows, Listed;
    var t := SavePromotion(s, now).value;
    var cert := NewIntermediate(s.roots[1].cert, s.unused, now).value;
    var older := Retired(s.issuers);
    PromotedOlderOk(s, t.roots, older, now);
    AppendedIssuerOk(s, older, t.roots, cert, now);
  }

  lemma RetirementStoreOk(s: Store, now: int)
    requires StoreOk(s, now)
    requires SaveRetirement(s).Ok?
    ensures StoreOk(SaveRetirement(s).value, now)
  {
    hide IssuersOk, KeysOk, KeyShape, KeysOrdered, BundlesOrdered, DistinctSerials, IssuerShape;
    var t := SaveRetirement(s).value;
    KeptIssuersOk(s, t, now);
    KeysOkFrame(s, t, now);
  }

  /** Without the retired root and what it signed, the other intermediates stand as before. */
  lemma KeptIssuersOk(s: Store, t: Store, now: int)
    requires RootShape(s.roots) && |s.roots| == 2 && s.roots[1].state == RootActive && s.issuers != [] && IssuerShape(s.issuers)
    requires RootsOk(s, now) && IssuersOk(s, now)
    requires t == s.(roots := [s.roots[1]], issuers := NotUnder(s.issuers, s.roots[0].cert))
    ensures t.issuers != [] && IssuerShape(t.issuers) && IssuersOk(t, now)
  {
    hide IssuerShape;
    var keep := (i: Issuer) => !SignedBy(i.cert, s.roots[0].cert);
    FilteredIssuersOk(s, t.issuers, keep, now);
    var between := s.(issuers := t.issuers);
    forall i | 0 <= i < |t.issuers|
      ensures IssuerOk(t.issuers[i], t, now)
    {
      assert t.issuers[i] in t.issuers && keep(t.issuers[i]);
      KeptIssuerOk(between, t, t.issuers[i], now);
    }
    assert forall i, j | 0 <= i < j < |t.issuers| :: Follows(between.issuers[i], between.issuers[j], ActiveRoot(s.roots).cert);
  }

  /** What the dropped root did not sign, the one that stays did. */
  lemma KeptIssuerOk(s: Store, t: Store, issuer: Issuer, now: int)
    requires |s.roots| == 2 && IssuerOk(issuer, s, now) && !SignedBy(issuer.cert, s.roots[0].cert)
    requires t == s.(roots := [s.roots[1]]) && s.roots[1].state == RootActive
    ensures IssuerOk(issuer, t, now)
  {
    assert SignedBy(issuer.cert, t.roots[0].cert) && Within(issuer.cert, t.roots[0].cert);
  }

  lemma RootKeyStoreOk(s: Store, stored: bool, now: int)
    requires StoreOk(s, now)
    requires SaveRootKey(s, stored).Ok?
    ensures StoreOk(SaveRootKey(s, stored).value, now)
    ensures SaveRootKey(s, stored).Ok? ==> ActiveRoot(SaveRootKey(s, stored).value.roots).cert == ActiveRoot(s.roots).cert
  {
    hide KeyShape, KeysOrdered, BundlesOrdered, DistinctSerials, IssuerShape;
    var t := SaveRootKey(s, stored).value;
    forall i | 0 <= i < |t.issuers|
      ensures IssuerOk(t.issuers[i], t, now)
    {
      assert IssuerOk(s.issuers[i], s, now);
      var k :| 0 <= k < |s.roots| && s.roots[k].state != RootNext &&
               SignedBy(s.issuers[i].cert, s.roots[k].cert) && Within(s.issuers[i].cert, s.roots[k].cert);
      assert t.roots[k].cert == s.roots[k].cert && t.roots[k].state == s.roots[k].state;
    }
  }

  lemma LeafStoreOk(s: Store, now: int)
    requires StoreOk(s, now)
    ensures StoreOk(s.(unused := s.unused + 1), now)
  {
    IssuersOkFrame(s, s.(unused := s.unused + 1), now);
  }

  lemma RevocationKeepsInv(w: World, serial: nat, notAfter: Option<int>, now: int)
    requires Inv(w) && w.clock <= now
    ensures Inv(AfterSave(w, SaveRevocation(w.store, serial, notAfter, now), now))
  {
    hide RootsOk, IssuersOk, KeysOk, KeyShape, KeysOrdered, IssuerShape, BundlesOrdered;
    ClockKeepsInv(w, now);
    StoreOkLater(w.store, w.clock, now);
    if SaveRevocation(w.store, serial, notAfter, now).Ok? {
      RevocationStoreOk(w.store, serial, notAfter, now);
      SavedKeepsInv(w, SaveRevocation(w.store, serial, notAfter, now).value, now);
    }
  }

  lemma IntermediateKeepsInv(w: World, brought: Option<nat>, revokePrevious: bool, now: int)
    requires Inv(w) && w.clock <= now
    ensures Inv(AfterSave(w, SaveIntermediate(w.store, brought, revokePrevious, now), now))
  {
    hide RootsOk, IssuersOk, KeysOk, KeyShape, KeysOrdered, IssuerShape, BundlesOrdered, Listed;
    ClockKeepsInv(w, now);
    StoreOkLater(w.store, w.clock, now);
    if SaveIntermediate(w.store, brought, revokePrevious, now).Ok? {
      IntermediateStoreOk(w.store, brought, revokePrevious, now);
      SavedKeepsInv(w, SaveIntermediate(w.store, brought, revokePrevious, now).value, now);
    }
  }

  lemma NextRootKeepsInv(w: World, now: int)
    requires Inv(w) && w.clock <= now
    ensures Inv(AfterSave(w, SaveNextRoot(w.store, now), now))
  {
    hide RootsOk, IssuersOk, KeysOk, KeyShape, KeysOrdered, IssuerShape, BundlesOrdered;
    ClockKeepsInv(w, now);
    StoreOkLater(w.store, w.clock, now);
    if SaveNextRoot(w.store, now).Ok? {
      NextRootStoreOk(w.store, now);
      SavedKeepsInv(w, SaveNextRoot(w.store, now).value, now);
    }
  }

  lemma PromotionKeepsInv(w: World, now: int)
    requires Inv(w) && w.clock <= now && InPhase(w, PhasePrepared)
    ensures Inv(AfterSave(w, SavePromotion(w.store, now), now))
  {
    hide RootsOk, IssuersOk, KeysOk, KeyShape, KeysOrdered, IssuerShape, BundlesOrdered, Listed;
    ClockKeepsInv(w, now);
    StoreOkLater(w.store, w.clock, now);
    if SavePromotion(w.store, now).Ok? {
      PromotionStoreOk(w.store, now);
      SavedKeepsInv(w, SavePromotion(w.store, now).value, now);
    }
  }

  lemma RetirementKeepsInv(w: World)
    requires Inv(w) && InPhase(w, PhasePromoted)
    ensures Inv(AfterSave(w, SaveRetirement(w.store), w.clock))
  {
    hide RootsOk, IssuersOk, KeysOk, KeyShape, KeysOrdered, IssuerShape, BundlesOrdered;
    if SaveRetirement(w.store).Ok? {
      RetirementStoreOk(w.store, w.clock);
      SavedKeepsInv(w, SaveRetirement(w.store).value, w.clock);
    }
  }

  lemma RootKeyKeepsInv(w: World, stored: bool)
    requires Inv(w)
    ensures Inv(AfterSave(w, SaveRootKey(w.store, stored), w.clock))
  {
    hide RootsOk, IssuersOk, KeysOk, KeyShape, KeysOrdered, IssuerShape, BundlesOrdered;
    if SaveRootKey(w.store, stored).Ok? {
      RootKeyStoreOk(w.store, stored, w.clock);
      SavedKeepsInv(w, SaveRootKey(w.store, stored).value, w.clock);
    }
  }

  /** Every event, in any order a clock allows, keeps the invariant. */
  lemma NextKeepsInv(w: World, e: Event)
    requires Inv(w) && InOrder(w, e)
    ensures Inv(Next(w, e))
  {
    hide RootsOk, IssuersOk, KeysOk, Shape, AfterSave, AfterPass;
    match e
    case PassRun(now) => PassKeepsInv(w, now);
    case Restart =>
    case RevocationSaved(serial, notAfter, now) => RevocationKeepsInv(w, serial, notAfter, now);
    case IntermediateSaved(brought, revokePrevious, now) => IntermediateKeepsInv(w, brought, revokePrevious, now);
    case NextRootSaved(now) => NextRootKeepsInv(w, now);
    case PromotionSaved(now) => if InPhase(w, PhasePrepared) { PromotionKeepsInv(w, now); }
    case RetirementSaved => if InPhase(w, PhasePromoted) { RetirementKeepsInv(w); }
    case RootKeySaved(stored) => RootKeyKeepsInv(w, stored);
    case LeafIssued => LeafStoreOk(w.store, w.clock);
  }
}
