/**
Two whole runs from an empty store in which a root rotation goes through, unforced,
and a node is left behind: one enrolled while a pass runs, one whose enrollment is
under way when the root is promoted.
*/
module ManagedWitness {
  import opened Wrappers
  import opened Seqs
  import opened PkiTypes
  import opened PkiCa
  import opened PkiBundle
  import opened PkiPass
  import opened PkiWorld
  import opened PkiInvariant
  import opened PkiHistory
  import opened PkiRuns
  import opened PkiTracking
  import opened PkiCaps
  import opened PkiWitness
  import opened ManagedNodes
  import opened ManagedEras
  import opened ManagedRuns
  import opened ManagedSafety

  // ---------- The authority, at one instant ----------

  function NextRoot(n: nat): Root {
    Root(Cert(n, n, n, true, -CLOCK_SKEW, ROOT_VALIDITY), RootNext, true)
  }

  function NextIssuer(n: nat, k: nat): Issuer {
    Issuer(Cert(k, k, n, true, -CLOCK_SKEW, INTERMEDIATE_VALIDITY), IssuerActive, 0)
  }

  predicate Begun(s: Store) {
    s.roots == [FIRST_ROOT] && s.issuers == [FIRST_ISSUER] && s.keys == [FIRST_KEY] && s.revocations == []
  }

  predicate PreparedStore(s: Store, n: nat) {
    s.roots == [FIRST_ROOT, NextRoot(n)] && s.issuers == [FIRST_ISSUER] && s.keys == [FIRST_KEY] && s.revocations == []
  }

  predicate PromotedStore(s: Store, n: nat, k: nat) {
    && s.roots == [FIRST_ROOT.(state := RootRetired), NextRoot(n).(state := RootActive)]
    && s.issuers == [FIRST_ISSUER.(state := IssuerRetired), NextIssuer(n, k)]
    && s.keys == [FIRST_KEY] && s.revocations == []
  }

  /** Nothing is due at the instant everything was made. */
  lemma QuietRefresh(s: Store)
    requires Shape(s) && s.roots != [] && s.issuers != [] && s.keys == [FIRST_KEY] && s.revocations == []
    requires forall i | 0 <= i < |s.issuers| ::
               s.issuers[i].cert.notBefore == -CLOCK_SKEW && s.issuers[i].cert.notAfter == INTERMEDIATE_VALIDITY
    ensures Refreshed(s, 0) == Ok((s, false))
  {
    hide RootShape, KeysOrdered, BundlesOrdered, DistinctSerials;
    assert !RenewalDue(s.issuers[|s.issuers| - 1].cert, 0);
    FilterAll(s.issuers, (i: Issuer) => IssuerLive(i, 0));
    assert LiveRevocations([], 0) == [];
  }

  /** A pass then changes nothing but the bundle and the view. */
  lemma QuietPass(w: World)
    requires Inv(w) && w.clock == 0 && w.store.roots != [] && Refreshed(w.store, 0) == Ok((w.store, false)) && w.store.keys != []
    ensures var w' := Next(w, PassRun(0));
            && w'.clock == 0 && w'.store == w.store.(bundles := w'.store.bundles)
            && w'.view.Some? && w'.view.value.phase == RotationPhase(w.store.roots)
            && w.store.issuers != [] && w'.view.value.issuer == w.store.issuers[|w.store.issuers| - 1].cert
            && w'.view.value.bundle.body.intermediates == Listed(w.store.issuers)
            && w'.view.value.bundle.body.roots == RootCerts(w.store.roots)
            && w'.view.value.bundle.body.revoked == SortedSerials(w.store.revocations)
            && w.log <= w'.log && |w'.log| <= |w.log| + 1
  {
    hide RootsOk, IssuersOk, KeysOk, LogOk, LinkOk, RootShape, KeyShape, IssuerShape, KeysOrdered, BundlesOrdered,
         DistinctSerials, Refreshed, Finish, Listed, RootCerts, SortedSerials, RetiredIssuers, RotationPhase;
    FinishKeepsRest(w.store, false, 0);
    FinishedSays(w.store, false, 0);
  }

  lemma FirstView(w: World)
    requires w == Start(0)
    ensures Inv(w) && Inv(Next(w, PassRun(0)))
    ensures var w' := Next(w, PassRun(0));
            && w'.clock == 0 && Begun(w'.store) && w'.store.unused == 3
            && w'.view.Some? && w'.view.value.phase == PhaseNone && w'.view.value.issuer == FIRST_ISSUER.cert
            && w'.view.value.bundle.body.roots == [FIRST_ROOT.cert] && w'.view.value.bundle.body.revoked == []
  {
    FirstPass();
    FirstRefresh();
    hide Refreshed, Finish, StoreOk, LogOk, LinkOk, Listed, RetiredIssuers;
    var (t, blocked) := Refreshed(EMPTY_STORE, 0).value;
    FinishKeepsRest(t, blocked, 0);
    FinishedSays(t, blocked, 0);
  }

  lemma Prepares(w: World)
    requires Inv(w) && w.clock == 0 && Begun(w.store)
    ensures var w' := Next(w, NextRootSaved(0));
            && Inv(w') && w'.clock == 0 && PreparedStore(w'.store, w.store.unused) && w'.store.unused == w.store.unused + 1
            && w'.view == w.view && w'.log == w.log
  {
    hide RootsOk, IssuersOk, KeysOk, LogOk, LinkOk, KeyShape, IssuerShape, KeysOrdered, BundlesOrdered, DistinctSerials;
    NextKeepsInv(w, NextRootSaved(0));
  }

  lemma Promotes(w: World, n: nat)
    requires Inv(w) && w.clock == 0 && PreparedStore(w.store, n) && InPhase(w, PhasePrepared)
    ensures var w' := Next(w, PromotionSaved(0));
            && Inv(w') && w'.clock == 0 && PromotedStore(w'.store, n, w.store.unused) && w'.store.unused == w.store.unused + 1
            && w'.view == w.view && w'.log == w.log
  {
    hide RootsOk, IssuersOk, KeysOk, LogOk, LinkOk, KeyShape, IssuerShape, KeysOrdered, BundlesOrdered, DistinctSerials,
         Listed;
    NextKeepsInv(w, PromotionSaved(0));
    ListedBound(w.store.issuers);
  }

  /** What a pass finds and shows after the promotion is still good at that instant. */
  lemma StillGoodAtOnce(w: World, n: nat, k: nat)
    requires Inv(w) && HistoryOk(w) && PromotedStore(w.store, n, k) && w.log != []
    requires var b := Latest(w).body;
             b.intermediates == Listed(w.store.issuers) && b.roots == RootCerts(w.store.roots) && b.revoked == []
    ensures StillGood(Latest(w), 0)
  {
    hide RootsOk, IssuersOk, KeysOk, LogOk, KeyShape, IssuerShape, KeysOrdered, BundlesOrdered, DistinctSerials,
         LastBundles, Listed;
    var b := Latest(w);
    ListedBound(w.store.issuers);
    forall i | 0 <= i < |b.body.intermediates|
      ensures 0 <= b.body.intermediates[i].notAfter
    {
      assert b.body.intermediates[i] in Listed(w.store.issuers);
    }
    assert Chained(w.log, |w.log| - 1);
    var e :| SignedWith(b, e);
    assert e in Entries(w.store.keys);
  }

  // ---------- An enrollment under way when the root is promoted ----------

  lemma Enrolls(f: Fleet)
    requires FleetInv(f) && f.w.clock == 0 && f.w.view.Some? && f.w.view.value.issuer == FIRST_ISSUER.cert
    ensures var g := Move(f, Enroll(0, 0));
            && g == f.(w := g.w, joining := g.joining, era := g.era)
            && g.w == f.w.(store := f.w.store.(unused := f.w.store.unused + 1))
            && |g.joining| == |f.joining| + 1 && g.joining[..|f.joining|] == f.joining
            && var m := g.joining[|f.joining|];
               && m.node.held == f.w.view.value.bundle && m.node.issuer == FIRST_ISSUER.cert
               && m.record.bundleVersion == m.node.held.body.version
  {
    hide RootsOk, IssuersOk, KeysOk, LogOk, LinkOk, KeyShape, RootShape, IssuerShape, KeysOrdered, BundlesOrdered,
         DistinctSerials, ViewOk, HistoryOk, EraOk, AllOk, NextEra;
  }

  /** The first pass, and nobody enrolled yet. */
  lemma FirstFleet() returns (steps: seq<Step>, f: Fleet)
    ensures steps == [Authority(PassRun(0))] && ComesTo(0, steps, f) && FleetInv(f)
    ensures f.nodes == [] && f.joining == [] && f.listed == None && f.w.clock == 0 && Begun(f.w.store)
    ensures f.w.view.Some? && f.w.view.value.issuer == FIRST_ISSUER.cert && f.w.view.value.bundle.body.roots == [FIRST_ROOT.cert]
  {
    hide FleetInv, Inv, Next, Begun, ComesTo, NextEra;
    ComesAtStart(0);
    FirstView(Start(0));
    ComesOn(0, [], Empty(0), Authority(PassRun(0)));
    steps, f := [Authority(PassRun(0))], Move(Empty(0), Authority(PassRun(0)));
    assert [] + [Authority(PassRun(0))] == steps;
  }

  /** From a first pass on, a next root is saved and published. */
  lemma PreparedFleet(steps: seq<Step>, f: Fleet) returns (on: seq<Step>, g: Fleet)
    requires ComesTo(0, steps, f) && FleetInv(f) && f.w.clock == 0 && Begun(f.w.store)
    ensures on == steps + [Authority(NextRootSaved(0))] + [Authority(PassRun(0))] && ComesTo(0, on, g) && FleetInv(g)
    ensures g == f.(w := g.w, era := g.era) && g.w.clock == 0
    ensures PreparedStore(g.w.store, f.w.store.unused) && InPhase(g.w, PhasePrepared) && g.w.view.value.issuer == FIRST_ISSUER.cert
    ensures g.w.view.value.bundle.body.revoked == []
  {
    hide FleetInv, Next, NextEra, Refreshed, Shape, StoreOk, LogOk, LinkOk, RootCerts, ComesTo;
    InvStands(f);
    var save, pass := Authority(NextRootSaved(0)), Authority(PassRun(0));
    Prepares(f.w);
    ComesOn(0, steps, f, save);
    var saved := Move(f, save);
    ShapeStands(saved.w);
    QuietRefresh(saved.w.store);
    QuietPass(saved.w);
    ComesOn(0, steps + [save], saved, pass);
    on, g := steps + [save] + [pass], Move(saved, pass);
  }

  lemma InvStands(f: Fleet)
    requires FleetInv(f)
    ensures Inv(f.w) && HistoryOk(f.w) && Shape(f.w.store)
  {
    hide RootsOk, IssuersOk, KeysOk, LogOk, LinkOk, ViewOk, HistoryOk, EraOk, AllOk;
  }

  lemma ShapeStands(w: World)
    requires Inv(w)
    ensures Shape(w.store)
  {
    hide RootsOk, IssuersOk, KeysOk, LogOk, LinkOk;
  }

  predicate Unforced(steps: seq<Step>) {
    forall s | s in steps && s.Promote? :: !s.force
  }

  /** The next root's number is above the first root's, so the first bundle does not list it. */
  lemma NotListedYet(w: World, n: nat, k: nat, held: Bundle)
    requires Inv(w) && PromotedStore(w.store, n, k) && held.body.roots == [FIRST_ROOT.cert]
    ensures ActiveRoot(w.store.roots).cert !in held.body.roots
  {
    hide IssuersOk, KeysOk, LogOk, LinkOk, KeyShape, IssuerShape, KeysOrdered, BundlesOrdered, DistinctSerials;
  }

  /**
  A node's enrollment is answered with the first bundle and not yet recorded while a
  root is prepared and promoted: the promotion waits for nobody, and the node does not
  know the root now in use.
  */
  lemma JoinerCutOff() returns (steps: seq<Step>, f: Fleet)
    ensures ComesTo(0, steps, f) && FleetInv(f) && Unforced(steps)
    ensures |f.nodes| == 1 && f.w.store.roots != [] && !HoldsActive(f.w, f.nodes[0].node)
  {
    hide FleetInv, Inv, Next, Shape, ComesTo, NextEra, ActiveRoot, InPhase, Begun;
    var first, f1 := FirstFleet();
    Enrolls(f1);
    ComesOn(0, first, f1, Enroll(0, 0));
    var f2 := Move(f1, Enroll(0, 0));
    BegunStill(f1.w.store, f2.w.store);
    var second, f3 := PreparedFleet(first + [Enroll(0, 0)], f2);
    var f4 := PromotedFleet(second, f3, f2.w.store.unused);
    ComesOn(0, second + [Promote(false, 0)], f4, Join(0));
    NotListedYet(f4.w, f2.w.store.unused, f3.w.store.unused, f4.joining[0].node.held);
    steps, f := second + [Promote(false, 0)] + [Join(0)], Move(f4, Join(0));
  }

  lemma BegunStill(s: Store, t: Store)
    requires Begun(s) && t == s.(unused := t.unused)
    ensures Begun(t)
  {
  }

  /** With everyone enrolled on the current bundle, an unforced promotion goes through. */
  lemma PromotedFleet(steps: seq<Step>, f: Fleet, n: nat) returns (g: Fleet)
    requires ComesTo(0, steps, f) && FleetInv(f) && f.w.clock == 0 && PreparedStore(f.w.store, n) && InPhase(f.w, PhasePrepared)
    requires forall i | 0 <= i < |f.nodes| :: f.nodes[i].record.bundleVersion == f.w.view.value.bundle.body.version
    ensures g == Move(f, Promote(false, 0)) && ComesTo(0, steps + [Promote(false, 0)], g) && FleetInv(g) && Inv(g.w)
    ensures g == f.(w := g.w, era := g.era) && g.w.clock == 0 && g.w.view == f.w.view && g.w.log == f.w.log
    ensures PromotedStore(g.w.store, n, f.w.store.unused)
  {
    hide FleetInv, Inv, Next, Shape, ComesTo, NextEra, PreparedStore, PromotedStore;
    InvStands(f);
    Promotes(f.w, n);
    ComesOn(0, steps, f, Promote(false, 0));
    g := Move(f, Promote(false, 0));
  }

  // ---------- An enrollment while a pass runs ----------

  /** This node was enrolled under the first root and holds the bundle in view. */
  predicate UnderFirst(m: Managed, view: View) {
    && m.node.held == view.bundle && m.record.bundleVersion == view.bundle.body.version
    && m.node.issuer == FIRST_ISSUER.cert
  }

  lemma EnrollsAndJoins(steps: seq<Step>, f: Fleet) returns (on: seq<Step>, g: Fleet)
    requires ComesTo(0, steps, f) && FleetInv(f) && f.w.clock == 0 && f.joining == []
    requires f.w.view.Some? && f.w.view.value.issuer == FIRST_ISSUER.cert
    ensures on == steps + [Enroll(0, 0)] + [Join(0)] && ComesTo(0, on, g) && FleetInv(g)
    ensures g == f.(w := g.w, nodes := g.nodes, era := g.era)
    ensures g.w == f.w.(store := f.w.store.(unused := f.w.store.unused + 1))
    ensures |g.nodes| == |f.nodes| + 1 && g.nodes[..|f.nodes|] == f.nodes && UnderFirst(g.nodes[|f.nodes|], f.w.view.value)
  {
    hide FleetInv, Inv, Next, Shape, ComesTo, NextEra;
    Enrolls(f);
    ComesOn(0, steps, f, Enroll(0, 0));
    var made := Move(f, Enroll(0, 0));
    ComesOn(0, steps + [Enroll(0, 0)], made, Join(0));
    on, g := steps + [Enroll(0, 0)] + [Join(0)], Move(made, Join(0));
  }

  /** One node is enrolled, a pass reads the list, a second node is enrolled. */
  lemma TwoFleet() returns (steps: seq<Step>, f: Fleet, n: nat)
    ensures ComesTo(0, steps, f) && FleetInv(f) && Unforced(steps)
    ensures f.w.clock == 0 && f.joining == [] && f.listed == Some(1) && PreparedStore(f.w.store, n) && InPhase(f.w, PhasePrepared)
    ensures |f.nodes| == 2 && UnderFirst(f.nodes[0], f.w.view.value) && UnderFirst(f.nodes[1], f.w.view.value)
  {
    hide FleetInv, Inv, Next, Shape, ComesTo, NextEra, UnderFirst, Begun;
    var first, f1 := FirstFleet();
    n := f1.w.store.unused;
    var second, f2 := PreparedFleet(first, f1);
    var third, f3 := EnrollsAndJoins(second, f2);
    ComesOn(0, third, f3, BeginPass);
    var f4 := Move(f3, BeginPass);
    steps, f := EnrollsAndJoins(third + [BeginPass], f4);
    assert f.nodes[..1] == f4.nodes && f.nodes[0] == f4.nodes[0];
  }

  /** The promotion goes through and a pass of the authority puts it in view. */
  lemma PromotedInView(steps: seq<Step>, f: Fleet, n: nat) returns (on: seq<Step>, g: Fleet, k: nat)
    requires ComesTo(0, steps, f) && FleetInv(f) && f.w.clock == 0 && PreparedStore(f.w.store, n) && InPhase(f.w, PhasePrepared)
    requires forall i | 0 <= i < |f.nodes| :: f.nodes[i].record.bundleVersion == f.w.view.value.bundle.body.version
    ensures on == steps + [Promote(false, 0)] + [Authority(PassRun(0))] && ComesTo(0, on, g) && FleetInv(g)
    ensures g == f.(w := g.w, era := g.era) && g.w.clock == 0 && PromotedStore(g.w.store, n, k) && InPhase(g.w, PhasePromoted)
    ensures g.w.view.value.issuer == NextIssuer(n, k).cert && f.w.log <= g.w.log && |g.w.log| <= |f.w.log| + 1
    ensures var b := g.w.view.value.bundle.body;
            RootShape(g.w.store.roots) && b.intermediates == Listed(g.w.store.issuers) && b.roots == RootCerts(g.w.store.roots)
            && b.revoked == []
  {
    hide FleetInv, Next, NextEra, Refreshed, Shape, StoreOk, LogOk, LinkOk, RootCerts, ComesTo, Listed;
    k := f.w.store.unused;
    var saved := PromotedFleet(steps, f, n);
    ShapeStands(saved.w);
    QuietRefresh(saved.w.store);
    QuietPass(saved.w);
    ComesOn(0, steps + [Promote(false, 0)], saved, Authority(PassRun(0)));
    on, g := steps + [Promote(false, 0)] + [Authority(PassRun(0))], Move(saved, Authority(PassRun(0)));
  }

  /** A node that held the bundle before takes the one of the promotion. */
  lemma TakesPromoted(f: Fleet, i: nat, n: nat, k: nat)
    requires FleetInv(f) && i < |f.nodes| && PromotedStore(f.w.store, n, k) && f.w.view.Some?
    requires |f.w.log| - 1 <= f.nodes[i].node.held.body.version
    requires var b := f.w.view.value.bundle.body;
             b.intermediates == Listed(f.w.store.issuers) && b.roots == RootCerts(f.w.store.roots) && b.revoked == []
    ensures f.nodes[i].node.held == f.w.view.value.bundle || Adoptable(f.w.view.value.bundle, f.nodes[i].node.held, 0)
  {
    hide RootsOk, IssuersOk, KeysOk, LogOk, LinkOk, KeyShape, IssuerShape, KeysOrdered, BundlesOrdered, DistinctSerials,
         ViewOk, EraOk, HistoryOk, Sided, Honest, Placed, Tracked, PromotedStore, Listed, RootCerts, SharesRoot,
         Adoptable, StillGood;
    assert ManagedOk(f.w, f.nodes[i]);
    var v := f.nodes[i].node.held.body.version;
    ViewIsLatest(f.w);
    if v < |f.w.log| {
      NextShares(f.w, v);
      StillGoodAtOnce(f.w, n, k);
      BehindTakesLatest(f, i, 0);
    }
  }

  /** With one node on the list, done, the pass drops the root. */
  lemma DropsNow(f: Fleet)
    requires FleetInv(f) && InPhase(f.w, PhasePromoted) && f.listed == Some(1) && |f.nodes| >= 1
    requires f.w.store.roots != [] && RotationPhase(f.w.store.roots) == PhasePromoted && Done(f.nodes[0], f.w.view.value)
    ensures Drops(f)
  {
    hide RootsOk, IssuersOk, KeysOk, LogOk, LinkOk, KeyShape, IssuerShape, KeysOrdered, BundlesOrdered, DistinctSerials,
         ViewOk, EraOk, HistoryOk, AllOk, DoneWithRoot, Reached;
    assert OnList(f)[0] == f.nodes[0].record;
  }

  /** The first node of two, on the list alone, is synced after the promotion. */
  lemma FirstIsSynced(f: Fleet, n: nat, k: nat)
    requires FleetInv(f) && f.w.clock == 0 && |f.nodes| == 2 && f.listed == Some(1)
    requires InPhase(f.w, PhasePromoted) && PromotedStore(f.w.store, n, k)
    requires f.w.view.value.issuer == NextIssuer(n, k).cert && f.w.view.value.bundle.body.revoked == []
    requires f.nodes[0].node.held == f.w.view.value.bundle || Adoptable(f.w.view.value.bundle, f.nodes[0].node.held, 0)
    ensures var g := Move(f, SyncOne(0, 0, 0, ALL_ANSWERED));
            && FleetInv(g) && Drops(g) && g.listed == Some(1) && |g.nodes| == 2 && g.nodes[1] == f.nodes[1]
            && g.w.view == f.w.view && g.w.store.roots == f.w.store.roots
  {
    hide RootsOk, IssuersOk, KeysOk, LogOk, LinkOk, KeyShape, IssuerShape, KeysOrdered, BundlesOrdered, DistinctSerials,
         ViewOk, EraOk, HistoryOk, AllOk, DoneWithRoot, Sync, Next, NextEra, Drops, Adoptable, Spent;
    FleetSigns(f);
    SyncedOne(f, 0, 0, 0, ALL_ANSWERED);
    MoveKeeps(f, SyncOne(0, 0, 0, ALL_ANSWERED));
    DropsNow(Move(f, SyncOne(0, 0, 0, ALL_ANSWERED)));
  }

  /**
  A pass has the first node on its list when a second is enrolled. Both have the
  current bundle, so an unforced promotion goes through. The first node then takes the
  new bundle and a new certificate, and the pass drops the root the second is under.
  */
  lemma EnrolledDuringPass() returns (steps: seq<Step>, f: Fleet)
    ensures ComesTo(0, steps, f) && FleetInv(f) && Unforced(steps)
    ensures Drops(f) && f.listed == Some(1) && |f.nodes| == 2 && f.w.store.roots != []
    ensures Reached(f.nodes[1].record, f.w.view.value) && SignedBy(f.nodes[1].node.issuer, f.w.store.roots[0].cert)
  {
    hide FleetInv, Inv, Next, NextEra, Shape, ComesTo, Listed, RootCerts, Sync, Adoptable, Drops, Move;
    var first, f1, n := TwoFleet();
    InvStands(f1);
    ViewIsLatest(f1.w);
    var second, f2, k := PromotedInView(first, f1, n);
    TakesPromoted(f2, 0, n, k);
    FirstIsSynced(f2, n, k);
    var step := SyncOne(0, 0, 0, ALL_ANSWERED);
    ComesOn(0, second, f2, step);
    steps, f := second + [step], Move(f2, step);
  }
}
