/** What a root rotation promises the enrolled nodes, in every run. */
module ManagedSafety {
  import opened Wrappers
  import opened PkiTypes
  import opened PkiCa
  import opened PkiBundle
  import opened PkiPass
  import opened PkiWorld
  import opened PkiInvariant
  import opened PkiHistory
  import opened PkiRuns
  import opened PkiTracking
  import opened PkiView
  import opened ManagedNodes
  import opened ManagedEras
  import opened ManagedRuns

  // ---------- Retiring a root ----------

  /** A record that claims the current version means the node holds the current bundle. */
  lemma HoldsLatest(w: World, n: Node)
    requires Inv(w) && NodeOk(w, n) && w.view.Some?
    requires n.held.body.version >= w.view.value.bundle.body.version
    ensures w.log != [] && n.held == Latest(w) == w.view.value.bundle
  {
    hide StoreOk;
  }

  /** A record placed by the current bundle that names no retired intermediate is of a node outside the retired root. */
  lemma NotUnderRetired(w: World, r: Record, n: Node)
    requires Inv(w) && ViewLists(w) && Placed(w.log, r, n) && !r.failed && r.certIssuer.Some?
    requires InPhase(w, PhasePromoted) && w.store.roots != [] && RotationPhase(w.store.roots) == PhasePromoted
    requires r.bundleVersion == |w.log| && n.issuer.serial !in w.view.value.retiredIssuers
    ensures !SignedBy(n.issuer, w.store.roots[0].cert) && n.issuer.serial !in Latest(w).body.revoked
  {
    hide RootsOk, IssuersOk, KeysOk, LogOk, LinkOk, KeyShape, IssuerShape, BundlesOrdered, KeysOrdered, DistinctSerials;
    ViewIsLatest(w);
  }

  /** What a retirement leaves is the active root, which the current bundle lists. */
  lemma SurvivorListed(w: World)
    requires Inv(w) && w.view.Some? && Next(w, RetirementSaved).store.roots != w.store.roots
    ensures InPhase(w, PhasePromoted) && w.store.roots != [] && RotationPhase(w.store.roots) == PhasePromoted && w.log != []
    ensures var after := Next(w, RetirementSaved).store;
            |after.roots| == 1 && after.roots[0].cert in Latest(w).body.roots
  {
    hide RootsOk, IssuersOk, KeysOk, LogOk, KeyShape, IssuerShape, BundlesOrdered, KeysOrdered, DistinctSerials,
         LastBundles, Entries;
  }

  /** The pass under way drops the retired root when it ends now. */
  predicate Drops(f: Fleet)
    requires Shape(f.w.store)
  {
    && Allowed(f, Retire) && f.w.view.Some?
    && Move(f, Retire).w.store.roots != f.w.store.roots
  }

  /** It does exactly if the promotion is stored and in view and no record of its list still spoken to holds the root back. */
  lemma DropsExactly(f: Fleet)
    requires FleetInv(f) && f.listed.Some?
    ensures Drops(f) <==>
              && f.w.view.Some? && RootUnused(OnList(f), f.w.view.value)
              && |f.w.store.roots| == 2 && f.w.store.roots[0].state == RootRetired
    ensures Drops(f) ==> Move(f, Retire).w.store == Next(f.w, RetirementSaved).store
  {
    hide RootsOk, IssuersOk, KeysOk, LogOk, LinkOk, KeyShape, IssuerShape, BundlesOrdered, KeysOrdered, DistinctSerials,
         ViewOk, HistoryOk, EraOk, AllOk, NextEra, NotUnder, DoneWithRoot, Reached;
  }

  /** This node is on the list of the pass under way and still spoken to. */
  predicate Awaited(f: Fleet, i: nat) {
    f.listed.Some? && i < f.listed.value <= |f.nodes| && f.w.view.Some? && Reached(f.nodes[i].record, f.w.view.value)
  }

  /**
  The node holds the current bundle, which lists the root that stays, and serves a
  certificate whose intermediate the dropped root did not sign and the bundle does not
  revoke.
  */
  predicate ServesOn(f: Fleet, i: nat)
    requires Shape(f.w.store) && Drops(f) && i < |f.nodes|
  {
    var n, after := f.nodes[i].node, Move(f, Retire).w.store;
    && f.w.log != [] && n.held == Latest(f.w)
    && |after.roots| == 1 && after.roots[0].cert in n.held.body.roots
    && f.w.store.roots != [] && !SignedBy(n.issuer, f.w.store.roots[0].cert)
    && n.issuer.serial !in n.held.body.revoked
  }

  /**
  When the retired root is dropped, every node on the list that is still reached
  holds the current bundle, which lists the root that stays, and serves a certificate
  whose intermediate the dropped root did not sign and the bundle does not revoke.
  */
  lemma RetirementStrandsNobody(f: Fleet, i: nat)
    requires FleetReachable(f)
    ensures Shape(f.w.store)
    ensures Awaited(f, i) && Drops(f) ==> ServesOn(f, i)
  {
    hide FleetReachable, RootsOk, IssuersOk, KeysOk, LogOk, LinkOk, ViewOk, HistoryOk, EraOk, AllOk, RootUnused, Next,
         ServesOn, Drops, Reached;
    FleetReachableOk(f);
    if Awaited(f, i) && Drops(f) {
      ListedIsOff(f, i);
    }
  }

  lemma ListedIsOff(f: Fleet, i: nat)
    requires Shape(f.w.store) && Awaited(f, i) && Drops(f) && FleetInv(f)
    ensures ServesOn(f, i)
  {
    hide RootsOk, IssuersOk, KeysOk, LogOk, LinkOk, RootShape, KeyShape, IssuerShape, BundlesOrdered, KeysOrdered,
         DistinctSerials, NodeOk, ViewOk, Next, HistoryOk, Placed, Sided, EraOk, NextEra;
    var m := f.nodes[i];
    assert OnList(f)[i] == m.record && ManagedOk(f.w, m);
    assert DoneWithRoot(m.record, f.w.view.value);
    SurvivorListed(f.w);
    HoldsLatest(f.w, m.node);
    ViewIsLatest(f.w);
    ListsStand(f.w);
    NotUnderRetired(f.w, m.record, m.node);
  }

  lemma ListsStand(w: World)
    requires Inv(w) && ViewOk(w)
    ensures ViewLists(w) && ViewSigns(w)
  {
  }

  // ---------- Enrolled while the pass runs ----------

  /** The certificate was issued before the view showed the promotion, and after that was so of the promotion before. */
  predicate Early(era: Era, n: Node) {
    era.since <= n.leaf.serial < era.turned
  }

  /**
  Of every node, on the list or not, and of every enrollment under way: the dropped
  root is above exactly those certified early, the root that stays above exactly
  those certified since.
  */
  lemma UnderDroppedExactly(f: Fleet, m: Managed)
    requires FleetInv(f) && Drops(f) && (m in f.nodes || m in f.joining)
    ensures f.w.store.roots != [] && (SignedBy(m.node.issuer, f.w.store.roots[0].cert) <==> Early(f.era, m.node))
    ensures var after := Move(f, Retire).w.store.roots;
            |after| == 1 && (SignedBy(m.node.issuer, after[0].cert) <==> f.era.turned <= m.node.leaf.serial)
  {
    hide RootsOk, IssuersOk, KeysOk, LogOk, LinkOk, KeyShape, IssuerShape, BundlesOrdered, KeysOrdered, DistinctSerials,
         ManagedOk, ViewOk, HistoryOk, EraOk, RootUnused;
    if m in f.nodes {
      var k :| 0 <= k < |f.nodes| && f.nodes[k] == m;
      assert Sided(f.w.store.roots, f.era, f.nodes[k].node);
    } else {
      var k :| 0 <= k < |f.joining| && f.joining[k] == m;
      assert Sided(f.w.store.roots, f.era, f.joining[k].node);
    }
  }

  /** No node still spoken to has a certificate under this root. */
  predicate NobodyUnder(f: Fleet, root: Cert)
    requires f.w.view.Some?
  {
    forall i | 0 <= i < |f.nodes| && Reached(f.nodes[i].record, f.w.view.value) :: !SignedBy(f.nodes[i].node.issuer, root)
  }

  /** No node still spoken to that was enrolled since the list was read was certified early. */
  predicate NoneEarly(f: Fleet)
    requires f.w.view.Some? && f.listed.Some?
  {
    forall i | f.listed.value <= i < |f.nodes| && Reached(f.nodes[i].record, f.w.view.value) :: !Early(f.era, f.nodes[i].node)
  }

  /**
  In every run, dropping the root leaves no reached node under it if and only if no
  reached node enrolled since the list was read was certified before the view showed
  the promotion.
  */
  lemma RetirementExactly(f: Fleet)
    requires FleetReachable(f)
    ensures Shape(f.w.store)
    ensures f.listed.Some? && f.w.view.Some? && Drops(f) ==>
              f.w.store.roots != [] && (NobodyUnder(f, f.w.store.roots[0].cert) <==> NoneEarly(f))
  {
    hide FleetReachable, Early, Reached, Drops, RootsOk, IssuersOk, KeysOk, LogOk, LinkOk, ViewOk, HistoryOk, EraOk, AllOk, Next;
    FleetReachableOk(f);
    if f.listed.Some? && f.w.view.Some? && Drops(f) {
      DropsWhat(f);
      forall i | 0 <= i < |f.nodes|
        ensures SignedBy(f.nodes[i].node.issuer, f.w.store.roots[0].cert) <==> Early(f.era, f.nodes[i].node)
        ensures i < f.listed.value && Reached(f.nodes[i].record, f.w.view.value) ==>
                  !SignedBy(f.nodes[i].node.issuer, f.w.store.roots[0].cert)
      {
        UnderDroppedExactly(f, f.nodes[i]);
        if Awaited(f, i) {
          ListedIsOff(f, i);
        }
      }
    }
  }

  lemma DropsWhat(f: Fleet)
    requires FleetInv(f) && Drops(f)
    ensures f.listed.Some? && f.listed.value <= |f.nodes| && f.w.view.Some? && f.w.store.roots != []
  {
    hide RootsOk, IssuersOk, KeysOk, LogOk, LinkOk, KeyShape, IssuerShape, BundlesOrdered, KeysOrdered, DistinctSerials,
         AllOk, ViewOk, HistoryOk, EraOk, RootUnused;
  }

  /** The promotion is stored and in view, and nobody not on the list, or on the way, was certified before. */
  predicate Settled(f: Fleet)
    requires RootShape(f.w.store.roots)
  {
    && f.listed.Some? && f.listed.value <= |f.nodes|
    && InPhase(f.w, PhasePromoted) && Promoted(f.w.store.roots)
    && (forall i | f.listed.value <= i < |f.nodes| :: f.era.turned <= f.nodes[i].node.leaf.serial)
    && (forall i | 0 <= i < |f.joining| :: f.era.turned <= f.joining[i].node.leaf.serial)
  }

  /** A step of the pass under way, or beside it: it neither ends the pass nor begins another. */
  predicate DuringPass(step: Step) {
    !step.Retire? && !step.BeginPass? && step != Authority(Restart)
  }

  lemma EventSettled(f: Fleet, e: Event)
    requires FleetInv(f) && InOrder(f.w, e) && Settled(f) && !e.Restart? && !e.RetirementSaved?
    ensures Inv(Next(f.w, e)) && Settled(With(f, Next(f.w, e))) && With(f, Next(f.w, e)).era == f.era
  {
    hide RootsOk, IssuersOk, KeysOk, LogOk, LinkOk, KeyShape, IssuerShape, BundlesOrdered, KeysOrdered, DistinctSerials,
         ViewOk, HistoryOk, EraOk, AllOk, Next;
    RootsStep(f.w, e);
    ViewStep(f.w, e);
    KeepsRoots(f.w, e);
  }

  lemma KeepsRoots(w: World, e: Event)
    requires Inv(w) && InOrder(w, e) && !e.Restart? && !e.RetirementSaved? && w.view.Some?
    ensures Next(w, e).view.Some? && |Next(w, e).store.roots| >= |w.store.roots|
  {
    hide RootsOk, IssuersOk, KeysOk, LogOk, LinkOk, KeyShape, IssuerShape, BundlesOrdered, KeysOrdered, DistinctSerials,
         Refreshed, Finish, Listed, RevokeListed;
    if e.PassRun? && Refreshed(w.store, e.now).Ok? {
      var unused := RefreshedParts(w.store, w.clock, e.now);
      var (t, blocked) := Refreshed(w.store, e.now).value;
      FinishKeepsRest(t, blocked, e.now);
    }
  }

  lemma SpentSettled(f: Fleet, now: int)
    requires FleetInv(f) && Settled(f)
    ensures Settled(With(f, Spent(f.w, now))) && With(f, Spent(f.w, now)).era == f.era
    ensures f.era.turned <= f.w.store.unused && Spent(f.w, now).store.roots == f.w.store.roots
  {
    hide RootsOk, IssuersOk, KeysOk, LogOk, LinkOk, KeyShape, IssuerShape, BundlesOrdered, KeysOrdered, DistinctSerials,
         ViewOk, HistoryOk, AllOk;
  }

  lemma StepSettled(f: Fleet, step: Step)
    requires FleetInv(f) && Allowed(f, step) && Settled(f) && DuringPass(step)
    ensures Shape(f.w.store) && RootShape(Move(f, step).w.store.roots) && Settled(Move(f, step))
  {
    hide RootsOk, IssuersOk, KeysOk, LogOk, LinkOk, KeyShape, IssuerShape, BundlesOrdered, KeysOrdered, DistinctSerials,
         ViewOk, HistoryOk, EraOk, AllOk, Next, Sync, Spent, NextEra, Confirmed;
    match step
    case Authority(event) => EventSettled(f, event);
    case Promote(_, now) => EventSettled(f, PromotionSaved(now));
    case Enroll(_, now) => SpentSettled(f, now);
    case Join(_) =>
    case SyncOne(_, _, now, _) => SpentSettled(f, now);
  }

  lemma {:induction false} RunSettled(f: Fleet, steps: seq<Step>)
    requires FleetInv(f) && Moves(f, steps) && Settled(f) && (forall s | s in steps :: DuringPass(s))
    ensures RootShape(MoveAll(f, steps).w.store.roots) && Settled(MoveAll(f, steps))
    decreases |steps|
  {
    hide RootsOk, IssuersOk, KeysOk, LogOk, LinkOk, RootShape, ViewOk, HistoryOk, EraOk, AllOk, Move, Allowed, DuringPass,
         Settled;
    if steps != [] {
      assert steps[0] in steps;
      MoveKeeps(f, steps[0]);
      StepSettled(f, steps[0]);
      RunSettled(Move(f, steps[0]), steps[1..]);
    }
  }

  /** When nobody was certified before, on the list or not, dropping the root leaves nobody under it. */
  lemma SettledIsOff(f: Fleet, i: nat)
    requires FleetInv(f) && Settled(f) && Drops(f) && i < |f.nodes| && Reached(f.nodes[i].record, f.w.view.value)
    ensures f.w.store.roots != [] && !SignedBy(f.nodes[i].node.issuer, f.w.store.roots[0].cert)
  {
    hide RootsOk, IssuersOk, KeysOk, LogOk, LinkOk, ViewOk, HistoryOk, EraOk, AllOk, RootUnused, Next, Drops;
    if i < f.listed.value {
      ListedIsOff(f, i);
    } else {
      UnderDroppedExactly(f, f.nodes[i]);
    }
  }

  /**
  If the promotion was stored and in view when the list was read, and no enrollment
  begun before it was still under way, the pass strands nobody, on the list or not.
  */
  lemma ListedAfterPromotion(f: Fleet, steps: seq<Step>, g: Fleet)
    requires FleetInv(f) && (forall s | s in steps :: DuringPass(s))
    requires Moves(f, [BeginPass] + steps) && g == MoveAll(f, [BeginPass] + steps)
    requires InPhase(f.w, PhasePromoted) && Promoted(f.w.store.roots)
    requires forall i | 0 <= i < |f.joining| :: f.era.turned <= f.joining[i].node.leaf.serial
    ensures Drops(g) ==> g.w.view.Some? && g.w.store.roots != []
    ensures Drops(g) ==> forall i | 0 <= i < |g.nodes| && Reached(g.nodes[i].record, g.w.view.value) ::
                           !SignedBy(g.nodes[i].node.issuer, g.w.store.roots[0].cert)
  {
    hide RootsOk, IssuersOk, KeysOk, LogOk, LinkOk, ViewOk, HistoryOk, EraOk, AllOk, DuringPass, Reached, RootUnused, Next,
         Drops;
    var begun := Move(f, BeginPass);
    MoveKeeps(f, BeginPass);
    assert ([BeginPass] + steps)[1..] == steps;
    RunSettled(begun, steps);
    if Drops(g) {
      DropsWhat(g);
      forall i | 0 <= i < |g.nodes| && Reached(g.nodes[i].record, g.w.view.value)
        ensures !SignedBy(g.nodes[i].node.issuer, g.w.store.roots[0].cert)
      {
        SettledIsOff(g, i);
      }
    }
  }

  // ---------- No unforced rotation cuts a node off ----------

  predicate HoldsActive(w: World, n: Node)
    requires RootShape(w.store.roots)
  {
    w.store.roots != [] ==> ActiveRoot(w.store.roots).cert in n.held.body.roots
  }

  /** After a promotion that goes through, a node is cut off if and only if its bundle does not list the next root. */
  lemma PromotionCutsOffExactly(w: World, now: int, n: Node)
    requires Inv(w) && w.clock <= now && Next(w, PromotionSaved(now)).store.roots != w.store.roots
    ensures |w.store.roots| == 2 && RootShape(Next(w, PromotionSaved(now)).store.roots)
    ensures HoldsActive(Next(w, PromotionSaved(now)), n) <==> w.store.roots[1].cert in n.held.body.roots
  {
    hide RootsOk, IssuersOk, KeysOk, LogOk, LinkOk, KeyShape, IssuerShape, BundlesOrdered, KeysOrdered, DistinctSerials,
         Listed;
  }

  /** Nothing is under way that was answered with a bundle without the next root. */
  predicate NobodyBehind(f: Fleet) {
    |f.w.store.roots| == 2 ==> forall k | 0 <= k < |f.joining| :: f.w.store.roots[1].cert in f.joining[k].node.held.body.roots
  }

  /** A promotion is not forced, this node is one it waits for, and no enrollment under way is behind. */
  predicate Waits(f: Fleet, step: Step, i: nat) {
    step.Promote? && InPhase(f.w, PhasePrepared) ==>
      !step.force && NobodyBehind(f) && (i < |f.nodes| ==> Reached(f.nodes[i].record, f.w.view.value))
  }

  lemma EventKeepsActive(w: World, e: Event)
    requires Inv(w) && InOrder(w, e) && w.store.roots != [] && !e.PromotionSaved?
    ensures Shape(w.store) && RootShape(Next(w, e).store.roots) && Next(w, e).store.roots != []
    ensures ActiveRoot(Next(w, e).store.roots).cert == ActiveRoot(w.store.roots).cert
  {
    hide RootsOk, IssuersOk, KeysOk, LogOk, LinkOk, KeyShape, BundlesOrdered, KeysOrdered, DistinctSerials, Refreshed,
         Finish, Listed;
    if e.PassRun? && Refreshed(w.store, e.now).Ok? {
      RefreshedOk(w.store, w.clock, e.now);
      var unused := RefreshedParts(w.store, w.clock, e.now);
      var (t, blocked) := Refreshed(w.store, e.now).value;
      FinishKeepsRest(t, blocked, e.now);
    }
  }

  lemma PromotionKeepsActive(f: Fleet, now: int, i: nat)
    requires FleetInv(f) && f.w.clock <= now && i < |f.nodes| && InPhase(f.w, PhasePrepared)
    requires Confirmed(Records(f.nodes), f.w.view.value) && Reached(f.nodes[i].record, f.w.view.value)
    requires HoldsActive(f.w, f.nodes[i].node)
    ensures RootShape(Next(f.w, PromotionSaved(now)).store.roots) && HoldsActive(Next(f.w, PromotionSaved(now)), f.nodes[i].node)
  {
    hide RootsOk, IssuersOk, KeysOk, LogOk, KeyShape, IssuerShape, BundlesOrdered, KeysOrdered, DistinctSerials, NodeOk,
         ViewOk, LastBundles, Entries, Listed, HistoryOk, EraOk, Sided, Placed;
    assert Records(f.nodes)[i] == f.nodes[i].record && ManagedOk(f.w, f.nodes[i]);
    HoldsLatest(f.w, f.nodes[i].node);
    if Next(f.w, PromotionSaved(now)).store.roots != f.w.store.roots {
      PromotionCutsOffExactly(f.w, now, f.nodes[i].node);
    }
  }

  lemma RootsStand(w: World, n: Node)
    requires Inv(w) && NodeOk(w, n)
    ensures w.store.roots != [] && w.log != [] && ActiveRoot(w.store.roots).cert in Latest(w).body.roots
  {
    hide StoreOk;
  }

  /** Node i, if enrolled, and all enrollments under way hold the active root. */
  predicate AllHold(f: Fleet, i: nat)
    requires RootShape(f.w.store.roots)
  {
    && (i < |f.nodes| ==> HoldsActive(f.w, f.nodes[i].node))
    && forall k | 0 <= k < |f.joining| :: HoldsActive(f.w, f.joining[k].node)
  }

  lemma SyncKeepsActive(f: Fleet, step: Step, i: nat)
    requires FleetInv(f) && Allowed(f, step) && step.SyncOne? && AllHold(f, i)
    ensures Shape(f.w.store) && RootShape(Move(f, step).w.store.roots) && AllHold(Move(f, step), i)
  {
    hide RootsOk, IssuersOk, KeysOk, LogOk, KeyShape, IssuerShape, BundlesOrdered, KeysOrdered, DistinctSerials, NodeOk,
         ViewOk, LastBundles, Entries, Sync, Adoptable, HistoryOk, EraOk, Sided, Placed, NextEra, Honest;
    if f.w.view.Some? && step.at == i {
      var m := f.nodes[i];
      assert ManagedOk(f.w, m);
      NodeParts(f.w, m.node);
      RootsStand(f.w, m.node);
      SyncStaysHonest(m.record, m.node, f.w.view.value, f.w.store.unused, step.validity, step.now, step.calls);
    }
  }

  lemma EventKeepsHeld(f: Fleet, e: Event, i: nat)
    requires FleetInv(f) && InOrder(f.w, e) && !e.PromotionSaved? && AllHold(f, i)
    ensures Inv(Next(f.w, e)) && AllHold(With(f, Next(f.w, e)), i)
  {
    hide RootsOk, IssuersOk, KeysOk, LogOk, LinkOk, KeyShape, IssuerShape, BundlesOrdered, KeysOrdered, DistinctSerials,
         ViewOk, HistoryOk, EraOk, Sided, Next, NextEra, ManagedOk;
    NextKeepsInv(f.w, e);
    if f.w.store.roots != [] {
      EventKeepsActive(f.w, e);
    } else {
      NoneWithoutRoot(f);
    }
  }

  lemma NoneWithoutRoot(f: Fleet)
    requires FleetInv(f) && f.w.store.roots == []
    ensures f.nodes == [] && f.joining == []
  {
    hide RootsOk, IssuersOk, KeysOk, LogOk, KeyShape, IssuerShape, BundlesOrdered, KeysOrdered, DistinctSerials, ViewOk,
         HistoryOk, EraOk, NodeOk;
    assert f.nodes != [] ==> Sided(f.w.store.roots, f.era, f.nodes[0].node);
    assert f.joining != [] ==> Sided(f.w.store.roots, f.era, f.joining[0].node);
  }

  lemma PromotionKeepsHeld(f: Fleet, force: bool, now: int, i: nat)
    requires FleetInv(f) && f.w.clock <= now && AllHold(f, i) && Waits(f, Promote(force, now), i)
    ensures Shape(f.w.store) && RootShape(Move(f, Promote(force, now)).w.store.roots) && AllHold(Move(f, Promote(force, now)), i)
  {
    hide RootsOk, IssuersOk, KeysOk, LogOk, LinkOk, KeyShape, IssuerShape, BundlesOrdered, KeysOrdered, DistinctSerials,
         ViewOk, HistoryOk, EraOk, Sided, NextEra, ManagedOk, Confirmed, SavePromotion;
    var w := Next(f.w, PromotionSaved(now));
    NextKeepsInv(f.w, PromotionSaved(now));
    if f.w.view.Some? && (force || Confirmed(Records(f.nodes), f.w.view.value)) && w.store.roots != f.w.store.roots {
      if i < |f.nodes| {
        PromotionKeepsActive(f, now, i);
      }
      forall k | 0 <= k < |f.joining|
        ensures HoldsActive(w, f.joining[k].node)
      {
        PromotionCutsOffExactly(f.w, now, f.joining[k].node);
      }
    }
  }

  lemma EnrollKeepsHeld(f: Fleet, validity: int, now: int, i: nat)
    requires FleetInv(f) && f.w.clock <= now && AllHold(f, i)
    ensures var end := Move(f, Enroll(validity, now));
            RootShape(end.w.store.roots) && AllHold(end, i)
  {
    hide RootsOk, IssuersOk, KeysOk, LogOk, KeyShape, BundlesOrdered, KeysOrdered, DistinctSerials, ViewOk, HistoryOk,
         EraOk, Sided, NextEra, ManagedOk, LastBundles, Entries, Issue;
  }

  lemma MoveKeepsActive(f: Fleet, step: Step, i: nat)
    requires FleetInv(f) && Allowed(f, step) && Waits(f, step, i) && AllHold(f, i)
    ensures Shape(f.w.store) && FleetInv(Move(f, step)) && AllHold(Move(f, step), i)
  {
    hide RootsOk, IssuersOk, KeysOk, LogOk, LinkOk, KeyShape, IssuerShape, BundlesOrdered, KeysOrdered, DistinctSerials,
         ManagedOk, ViewOk, Next, Sync, Issue, RootUnused, Confirmed, Sided, NextEra, EraOk, HistoryOk, HoldsActive,
         Waits;
    MoveKeeps(f, step);
    match step
    case Authority(event) => EventKeepsHeld(f, event, i);
    case Promote(force, now) => PromotionKeepsHeld(f, force, now, i);
    case Enroll(validity, now) => EnrollKeepsHeld(f, validity, now, i);
    case Join(_) =>
    case BeginPass =>
    case SyncOne(_, _, _, _) => SyncKeepsActive(f, step, i);
    case Retire => EventKeepsHeld(f, RetirementSaved, i);
  }

  ghost predicate AlwaysWaits(f: Fleet, steps: seq<Step>, i: nat)
    requires FleetInv(f) && Moves(f, steps)
    decreases |steps|
  {
    steps == [] || (Waits(f, steps[0], i) && (MoveKeeps(f, steps[0]); AlwaysWaits(Move(f, steps[0]), steps[1..], i)))
  }

  lemma {:induction false} RunKeepsActive(f: Fleet, steps: seq<Step>, i: nat)
    requires FleetInv(f) && Moves(f, steps) && AlwaysWaits(f, steps, i) && AllHold(f, i)
    ensures AllHold(MoveAll(f, steps), i)
    decreases |steps|
  {
    hide RootsOk, IssuersOk, KeysOk, LogOk, LinkOk, KeyShape, IssuerShape, BundlesOrdered, KeysOrdered, DistinctSerials,
         AllOk, ViewOk, HistoryOk, EraOk, Move, Allowed, AllHold, Waits;
    if steps != [] {
      MoveKeepsActive(f, steps[0], i);
      RunKeepsActive(Move(f, steps[0]), steps[1..], i);
    }
  }

  /**
  Whatever calls are lost, a node that every promotion waited for, with no enrollment
  behind, always holds a bundle with the active root: the next bundle shares a root with the one it
  holds, and what the Control Tower serves chains to a root it knows.
  */
  lemma NoNodeCutOff(clock: int, steps: seq<Step>, f: Fleet, i: nat)
    requires ComesTo(clock, steps, f) && i < |f.nodes|
    requires (StartFleet(clock); AlwaysWaits(Empty(clock), steps, i))
    ensures Inv(f.w) && f.w.store.roots != [] && f.w.log != []
    ensures ActiveRoot(f.w.store.roots).cert in f.nodes[i].node.held.body.roots
    ensures SharesRoot(Latest(f.w).body, f.nodes[i].node.held.body)
  {
    StartFleet(clock);
    hide RootsOk, IssuersOk, KeysOk, LogOk, LinkOk, KeyShape, BundlesOrdered, KeysOrdered, DistinctSerials, NodeOk,
         ViewOk, Move, Allowed, Honest, HistoryOk, EraOk, Sided, Placed;
    RunKeepsActive(Empty(clock), steps, i);
    assert ManagedOk(f.w, f.nodes[i]);
    RootsStand(f.w, f.nodes[i].node);
    var root := ActiveRoot(f.w.store.roots).cert;
    var k :| 0 <= k < |Latest(f.w).body.roots| && Latest(f.w).body.roots[k] == root;
  }

  /**
  Such a node, however many bundles behind, takes the latest one directly at any
  instant if and only if that is still good, while it is at most the promotion delay
  behind.
  */
  lemma NodeTakesLatest(clock: int, steps: seq<Step>, f: Fleet, i: nat, at: int)
    requires ComesTo(clock, steps, f) && i < |f.nodes|
    requires (StartFleet(clock); AlwaysWaits(Empty(clock), steps, i))
    requires var v := f.nodes[i].node.held.body.version;
             1 <= v < |f.w.log| && Recent(f.w.log, v - 1, |f.w.log| - 1)
    ensures Adoptable(Latest(f.w), f.nodes[i].node.held, at) <==> StillGood(Latest(f.w), at)
  {
    hide Inv, HistoryOk, ViewOk, ManagedOk, Adoptable, StillGood, SharesRoot, Recent, AlwaysWaits, ComesTo;
    NoNodeCutOff(clock, steps, f, i);
    assert FleetReachable(f);
    FleetReachableOk(f);
    BehindTakesLatest(f, i, at);
  }

  lemma BehindTakesLatest(f: Fleet, i: nat, at: int)
    requires FleetInv(f) && i < |f.nodes| && f.w.log != []
    requires SharesRoot(Latest(f.w).body, f.nodes[i].node.held.body)
    requires var v := f.nodes[i].node.held.body.version;
             1 <= v < |f.w.log| && Recent(f.w.log, v - 1, |f.w.log| - 1)
    ensures Adoptable(Latest(f.w), f.nodes[i].node.held, at) <==> StillGood(Latest(f.w), at)
  {
    hide Inv, HistoryOk, ViewOk, Adoptable, StillGood, SharesRoot, Recent, Honest, Placed, Tracked, BundleTracks;
    assert ManagedOk(f.w, f.nodes[i]);
    LaterBundleAdoptable(f.w, f.nodes[i].node.held.body.version - 1, |f.w.log| - 1, at);
  }

  // ---------- One pass is enough ----------

  /** The configured validity, checked when the authority is built. */
  predicate ValidityOk(validity: int) {
    validity == 0 || MIN_LEAF_VALIDITY <= validity <= MAX_LEAF_VALIDITY
  }

  /** While its intermediate lasts, a view can certify a node that holds its bundle. */
  lemma NewLeafInstalls(view: View, number: nat, validity: int, now: int)
    requires CanSign(view) && number !in view.bundle.body.revoked && ValidityOk(validity)
    requires view.issuer.notBefore <= now < view.issuer.notAfter
    ensures var issued := Issue(view.issuer, number, number, true, 1, validity, now);
            issued.Ok? && issued.value.serial == number && ServerChain(view.bundle.body, issued.value, view.issuer, now)
  {
    var leaf := Issue(view.issuer, number, number, true, 1, validity, now).value;
    var b := view.bundle.body;
    var k :| 0 <= k < |b.roots| && SignedBy(view.issuer, b.roots[k]) && Within(view.issuer, b.roots[k]);
    assert !ChainHit(b, [leaf, view.issuer, b.roots[k]]);
  }

  /** A node that answers and can take the bundle is done with the retired root. */
  lemma SyncFinishes(r: Record, n: Node, view: View, number: nat, validity: int, now: int)
    requires n.held == view.bundle || Adoptable(view.bundle, n.held, now)
    requires CanSign(view) && number !in view.bundle.body.revoked && ValidityOk(validity)
    requires view.issuer.notBefore <= now < view.issuer.notAfter
    ensures DoneWithRoot(Sync(r, n, view, number, validity, now, ALL_ANSWERED).record, view)
  {
    hide Adoptable, ServerChain, CanSign, LifeSpent, Issue;
    NewLeafInstalls(view, number, validity, now);
    IssuerFree(view);
    AdoptableNewer(n, view, now);
  }

  lemma IssuerFree(view: View)
    requires CanSign(view)
    ensures view.issuer.serial !in view.retiredIssuers
  {
  }

  lemma AdoptableNewer(n: Node, view: View, now: int)
    requires n.held == view.bundle || Adoptable(view.bundle, n.held, now)
    ensures n.held == view.bundle || n.held.body.version < view.bundle.body.version
  {
  }

  /**
  A node still reached answers and can take the current bundle; one whose certificate
  is revoked is not spoken to.
  */
  predicate Answers(m: Managed, view: View, now: int, calls: Calls) {
    if Reached(m.record, view) then
      calls == ALL_ANSWERED && (m.node.held == view.bundle || Adoptable(view.bundle, m.node.held, now))
    else
      !calls.registered || !calls.status
  }

  /** The rest of a pass from some node on: each is synced in turn, then the root is retired if unused. */
  function PassFrom(from: nat, validity: int, now: int, calls: seq<Calls>): seq<Step>
    requires from <= |calls|
    decreases |calls| - from
  {
    if from == |calls| then [Retire]
    else [SyncOne(from, validity, now, calls[from])] + PassFrom(from + 1, validity, now, calls)
  }

  predicate Done(m: Managed, view: View) {
    Reached(m.record, view) ==> DoneWithRoot(m.record, view)
  }

  /** What the sync of one node leaves of a pass under way. */
  lemma SyncedOne(f: Fleet, at: nat, validity: int, now: int, calls: Calls)
    requires Shape(f.w.store) && ViewSigns(f.w) && f.w.view.Some? && ValidityOk(validity)
    requires f.listed.Some? && at < f.listed.value <= |f.nodes|
    requires f.w.clock <= now < f.w.view.value.issuer.notAfter && Answers(f.nodes[at], f.w.view.value, now, calls)
    ensures var g := Move(f, SyncOne(at, validity, now, calls));
            && g.w.view == f.w.view && g.w.clock == now && g.w.store.roots == f.w.store.roots
            && |g.nodes| == |f.nodes| && g.listed == f.listed && Done(g.nodes[at], f.w.view.value)
            && forall i | 0 <= i < |f.nodes| && i != at :: g.nodes[i] == f.nodes[i]
  {
    hide Shape, Adoptable, CanSign, Certify, Reached, DoneWithRoot;
    var m, view := f.nodes[at], f.w.view.value;
    if Reached(m.record, view) {
      SyncFinishes(m.record, m.node, view, f.w.store.unused, validity, now);
    } else {
      SameSerial(m.record, m.node, view, f.w.store.unused, validity, now, calls);
    }
  }

  lemma SameSerial(r: Record, n: Node, view: View, number: nat, validity: int, now: int, calls: Calls)
    requires (!calls.registered || !calls.status) && !Reached(r, view)
    ensures !Reached(Sync(r, n, view, number, validity, now, calls).record, view)
  {
  }

  lemma MovesNot(f: Fleet)
    requires FleetInv(f)
    ensures Moves(f, []) && MoveAll(f, []) == f
  {
  }

  /** A run of one step and then the rest. */
  lemma MovesOn(f: Fleet, step: Step, rest: seq<Step>)
    requires FleetInv(f) && Allowed(f, step)
    ensures Shape(f.w.store) && FleetInv(Move(f, step))
    ensures Moves(Move(f, step), rest) ==>
              Moves(f, [step] + rest) && MoveAll(f, [step] + rest) == MoveAll(Move(f, step), rest)
  {
    hide FleetInv, Move, Allowed;
    MoveKeeps(f, step);
    assert ([step] + rest)[1..] == rest;
  }

  /** Of a promoted rotation the active root alone is left; anything else stays as it is. */
  predicate RootDropped(before: seq<Root>, end: seq<Root>)
    requires RootShape(before)
  {
    end == if before != [] && RotationPhase(before) == PhasePromoted then [before[1]] else before
  }

  lemma FleetSigns(f: Fleet)
    requires FleetInv(f)
    ensures ViewSigns(f.w)
  {
    hide Inv, HistoryOk, ManagedOk, ViewSigns, ViewLists, Apart, RevokedRecorded, Tracked;
  }

  lemma {:induction false} PassFinishesFrom(f: Fleet, from: nat, validity: int, now: int, calls: seq<Calls>)
    requires FleetInv(f) && InPhase(f.w, PhasePromoted) && ValidityOk(validity)
    requires from <= |f.nodes| == |calls| && f.listed == Some(|f.nodes|)
    requires f.w.clock <= now < f.w.view.value.issuer.notAfter
    requires forall i | 0 <= i < from :: Done(f.nodes[i], f.w.view.value)
    requires forall i | from <= i < |f.nodes| :: Answers(f.nodes[i], f.w.view.value, now, calls[i])
    ensures Moves(f, PassFrom(from, validity, now, calls))
    ensures RootDropped(f.w.store.roots, MoveAll(f, PassFrom(from, validity, now, calls)).w.store.roots)
    decreases |calls| - from
  {
    hide FleetInv, Answers, Done, Move, Moves, MoveAll, RootDropped, ValidityOk;
    if from == |calls| {
      MovesOn(f, Retire, []);
      RetiresAtEnd(f);
      MovesNot(Move(f, Retire));
      assert [Retire] + [] == [Retire];
    } else {
      var step := SyncOne(from, validity, now, calls[from]);
      MovesOn(f, step, PassFrom(from + 1, validity, now, calls));
      FleetSigns(f);
      SyncedOne(f, from, validity, now, calls[from]);
      PassFinishesFrom(Move(f, step), from + 1, validity, now, calls);
    }
  }

  lemma RetiresAtEnd(f: Fleet)
    requires Shape(f.w.store) && InPhase(f.w, PhasePromoted) && f.listed == Some(|f.nodes|)
    requires forall i | 0 <= i < |f.nodes| :: Done(f.nodes[i], f.w.view.value)
    ensures RootDropped(f.w.store.roots, Move(f, Retire).w.store.roots)
  {
    hide KeyShape, IssuerShape, BundlesOrdered, KeysOrdered, DistinctSerials, DoneWithRoot, Reached;
    var records := OnList(f);
    assert f.nodes[..|f.nodes|] == f.nodes;
    forall i | 0 <= i < |records| && Reached(records[i], f.w.view.value)
      ensures DoneWithRoot(records[i], f.w.view.value)
    {
      assert Done(f.nodes[i], f.w.view.value);
    }
  }

  /** A whole pass: the list is read first. */
  function WholePass(validity: int, now: int, calls: seq<Calls>): seq<Step> {
    [BeginPass] + PassFrom(0, validity, now, calls)
  }

  /**
  In every run, with a promoted rotation in view, one pass at any time while the
  intermediate in use lasts, in which every node still reached answers, drops the
  retired root.
  */
  lemma OnePassFinishes(f: Fleet, validity: int, now: int, calls: seq<Calls>)
    requires FleetReachable(f) && InPhase(f.w, PhasePromoted) && ValidityOk(validity) && |f.nodes| == |calls|
    requires f.w.clock <= now < f.w.view.value.issuer.notAfter
    requires forall i | 0 <= i < |f.nodes| :: Answers(f.nodes[i], f.w.view.value, now, calls[i])
    ensures FleetInv(f) && Moves(f, WholePass(validity, now, calls)) && f.w.store.roots != []
    ensures RootDropped(f.w.store.roots, MoveAll(f, WholePass(validity, now, calls)).w.store.roots)
  {
    hide FleetInv, Answers, Done, FleetReachable, Moves, MoveAll, RootDropped;
    FleetReachableOk(f);
    ViewHasRoot(f);
    MovesOn(f, BeginPass, PassFrom(0, validity, now, calls));
    PassFinishesFrom(Move(f, BeginPass), 0, validity, now, calls);
  }

  lemma ViewHasRoot(f: Fleet)
    requires FleetInv(f) && f.w.view.Some?
    ensures f.w.store.roots != []
  {
    hide Inv, AllOk, ViewOk, HistoryOk;
  }
}
