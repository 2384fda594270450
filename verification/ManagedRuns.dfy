/**
The authority together with the nodes it enrolled, over whole runs: authority
events, enrollments, promotions, and passes over the nodes with any call lost. A
pass reads the list of nodes once; whoever is enrolled while it runs is not on it.
*/
module ManagedRuns {
  import opened Wrappers
  import opened PkiTypes
  import opened PkiCa
  import opened PkiBundle
  import opened PkiPass
  import opened PkiWorld
  import opened PkiInvariant
  import opened PkiHistory
  import opened PkiRuns
  import opened PkiTracking
  import opened PkiView
  import opened ManagedNodes
  import opened ManagedEras

  datatype Managed = Managed(record: Record, node: Node)

  /**
  `joining` are enrollments under way: issued and not yet recorded. `listed` says how
  many of the nodes the pass under way has on its list. `era` is bookkeeping.
  */
  datatype Fleet = Fleet(w: World, nodes: seq<Managed>, joining: seq<Managed>, listed: Option<nat>, era: Era)

  function Empty(clock: int): Fleet {
    Fleet(Start(clock), [], [], None, Era(0, 0))
  }

  datatype Step =
    | Authority(event: Event)
    | Promote(force: bool, now: int)
    | Enroll(validity: int, now: int)
    | Join(of: nat)
    | BeginPass
    | SyncOne(at: nat, validity: int, now: int, calls: Calls)
    | Retire

  predicate Allowed(f: Fleet, step: Step) {
    match step
    case Authority(event) =>
      InOrder(f.w, event) && KnownSerial(f.w, event) && !event.PromotionSaved? && !event.RetirementSaved?
    case Promote(_, now) => f.w.clock <= now
    case Enroll(_, now) => f.w.clock <= now
    case Join(of) => of < |f.joining|
    case BeginPass => true
    case SyncOne(at, _, now, _) => f.listed.Some? && at < f.listed.value && at < |f.nodes| && f.w.clock <= now
    case Retire => f.listed.Some? && f.listed.value <= |f.nodes|
  }

  function Records(nodes: seq<Managed>): seq<Record> {
    seq(|nodes|, i requires 0 <= i < |nodes| => nodes[i].record)
  }

  /** The number of a leaf is spent whether or not it was issued. */
  function Spent(w: World, now: int): World
    requires Shape(w.store)
  {
    Next(w, LeafIssued).(clock := now)
  }

  /** What an enrollment answers and records: the node counts as holding it from the start. */
  function Enrolled(leaf: Cert, view: View): Managed {
    Managed(Record(view.bundle.body.version, leaf.serial, Some(view.issuer.serial), leaf.notBefore, leaf.notAfter, false),
            Node(view.bundle, leaf, view.issuer))
  }

  /** The fleet after the authority has changed. */
  function With(f: Fleet, w: World): Fleet {
    f.(w := w, era := NextEra(f.era, f.w, w))
  }

  /** The records on the list of the pass under way. */
  function OnList(f: Fleet): seq<Record>
    requires f.listed.Some? && f.listed.value <= |f.nodes|
  {
    Records(f.nodes[..f.listed.value])
  }

  /** A restart ends the pass and the enrollments under way; a pass ends with the look at the retired root. */
  function Move(f: Fleet, step: Step): Fleet
    requires Shape(f.w.store) && Allowed(f, step)
  {
    match step
    case Authority(event) =>
      var after := With(f, Next(f.w, event));
      if event.Restart? then after.(joining := [], listed := None) else after
    case Promote(force, now) =>
      if f.w.view.Some? && (force || Confirmed(Records(f.nodes), f.w.view.value))
      then With(f, Next(f.w, PromotionSaved(now))) else f
    case Enroll(validity, now) =>
      if f.w.view.None? then f
      else
        (match Issue(f.w.view.value.issuer, f.w.store.unused, f.w.store.unused, true, 1, validity, now)
         case Err(_) => f
         case Ok(leaf) => With(f, Spent(f.w, now)).(joining := f.joining + [Enrolled(leaf, f.w.view.value)]))
    case Join(of) =>
      f.(nodes := f.nodes + [f.joining[of]], joining := f.joining[..of] + f.joining[of + 1..])
    case BeginPass => f.(listed := Some(|f.nodes|))
    case SyncOne(at, validity, now, calls) =>
      if f.w.view.None? then f
      else
        var done := Sync(f.nodes[at].record, f.nodes[at].node, f.w.view.value, f.w.store.unused, validity, now, calls);
        With(f, Spent(f.w, now)).(nodes := f.nodes[at := Managed(done.record, done.node)])
    case Retire =>
      var over := f.(listed := None);
      if f.w.view.Some? && RootUnused(OnList(f), f.w.view.value) then With(over, Next(f.w, RetirementSaved)) else over
  }

  // ---------- What every state satisfies ----------

  /** The bundle a node holds is one the authority published, and its intermediate is tracked. */
  ghost predicate NodeOk(w: World, n: Node) {
    && 1 <= n.held.body.version <= |w.log|
    && w.log[n.held.body.version - 1] == n.held
    && SignedBy(n.leaf, n.issuer)
    && n.leaf.notAfter <= n.issuer.notAfter
    && n.leaf.serial < w.store.unused
    && n.issuer.signedBy < w.store.unused
    && Tracked(w.store, n.issuer, w.clock)
    && BundleTracks(w, n.issuer)
  }

  /**
  A record not marked failed was made when the node's intermediate was not revoked
  by the bundle it claims, which lists it or no root that signed it.
  */
  predicate Placed(log: seq<Bundle>, r: Record, n: Node) {
    !r.failed && r.certIssuer.Some? ==>
      && 1 <= r.bundleVersion <= |log|
      && var b := log[r.bundleVersion - 1].body;
         && n.issuer.serial !in b.revoked
         && (n.issuer in b.intermediates || forall k | 0 <= k < |b.roots| :: b.roots[k].key != n.issuer.signedBy)
  }

  ghost predicate ManagedOk(w: World, m: Managed) {
    NodeOk(w, m.node) && Honest(m.record, m.node) && m.record.certSerial < w.store.unused && Placed(w.log, m.record, m.node)
  }

  ghost predicate AllOk(w: World, era: Era, members: seq<Managed>)
    requires RootShape(w.store.roots)
  {
    forall i | 0 <= i < |members| :: ManagedOk(w, members[i]) && Sided(w.store.roots, era, members[i].node)
  }

  ghost predicate ViewOk(w: World)
    requires RootShape(w.store.roots)
  {
    && RevokedRecorded(w.store)
    && Apart(w.store)
    && ViewSigns(w)
    && ViewLists(w)
    && (w.view.Some? ==> Tracked(w.store, w.view.value.issuer, w.clock))
  }

  ghost predicate FleetInv(f: Fleet) {
    && Inv(f.w)
    && HistoryOk(f.w)
    && ViewOk(f.w)
    && EraOk(f.w, f.era)
    && AllOk(f.w, f.era, f.nodes)
    && AllOk(f.w, f.era, f.joining)
    && (f.listed.Some? ==> f.listed.value <= |f.nodes|)
  }

  // ---------- Kept by every step ----------

  lemma PassView(w: World, t: Store, blocked: bool, now: int)
    requires RootShape(t.roots) && t.roots != [] && KeyShape(t.keys) && t.keys != [] && t.issuers != []
    ensures var w' := After(w, Finish(t, blocked, now), now);
            w'.view.Some? && Tracked(w'.store, w'.view.value.issuer, now)
  {
    hide KeyShape, RootShape, Finish, Listed, RootCerts, SortedSerials, RetiredIssuers, RotationPhase;
    FinishedSays(t, blocked, now);
    FinishKeepsRest(t, blocked, now);
    assert t.issuers[|t.issuers| - 1] in Finish(t, blocked, now).store.issuers;
  }

  lemma NextView(w: World, e: Event)
    requires Inv(w) && HistoryOk(w) && InOrder(w, e) && KnownSerial(w, e) && ViewOk(w)
    ensures Inv(Next(w, e)) && HistoryOk(Next(w, e)) && ViewOk(Next(w, e))
  {
    hide RootsOk, IssuersOk, KeysOk, LogOk, LinkOk, KeyShape, RootShape, BundlesOrdered, KeysOrdered, Refreshed, Finish,
         Listed, DistinctSerials, ViewLists, ViewSigns, Apart, RevokedRecorded, Tracked, HistoryOk, KnownSerial;
    NextKeepsHistory(w, e);
    NextRecorded(w, e);
    NextApart(w, e);
    NextSigns(w, e);
    NextLists(w, e);
    if e.PassRun? && Refreshed(w.store, e.now).Ok? {
      RefreshedOk(w.store, w.clock, e.now);
      var (t, blocked) := Refreshed(w.store, e.now).value;
      PassView(w, t, blocked, e.now);
    } else if w.view.Some? {
      SignerNumbered(w);
      NextTracks(w, e, w.view.value.issuer);
    }
  }

  lemma SignerNumbered(w: World)
    requires ViewSigns(w) && w.view.Some?
    ensures w.view.value.issuer.signedBy < w.store.unused && w.view.value.issuer.isCA
  {
  }

  lemma LogGrows(w: World, e: Event)
    requires Inv(w) && InOrder(w, e)
    ensures w.log <= Next(w, e).log && w.store.unused <= Next(w, e).store.unused
  {
    hide RootsOk, IssuersOk, KeysOk, LogOk, LinkOk, KeyShape, RootShape, BundlesOrdered, KeysOrdered, Refreshed,
         Finish, Listed, DistinctSerials, NewIntermediate, RevokeListed;
    if e.PassRun? && Refreshed(w.store, e.now).Ok? {
      RefreshedOk(w.store, w.clock, e.now);
      var unused := RefreshedParts(w.store, w.clock, e.now);
      var (t, blocked) := Refreshed(w.store, e.now).value;
      FinishKeepsRest(t, blocked, e.now);
    }
  }

  lemma NextNode(w: World, e: Event, m: Managed)
    requires Inv(w) && InOrder(w, e) && RevokedRecorded(w.store) && ManagedOk(w, m)
    ensures Shape(w.store) && ManagedOk(Next(w, e), m)
  {
    hide RootsOk, IssuersOk, KeysOk, LogOk, LinkOk, Next, Tracked, InOrder, BundleTracks, RevokedRecorded, Honest;
    LogGrows(w, e);
    NextTracks(w, e, m.node.issuer);
    NextBundleTracks(w, e, m.node.issuer);
  }

  lemma ClockKeepsView(w: World, now: int)
    requires Inv(w) && HistoryOk(w) && ViewOk(w) && w.clock <= now
    ensures Inv(w.(clock := now)) && HistoryOk(w.(clock := now)) && ViewOk(w.(clock := now))
  {
    hide RootsOk, IssuersOk, KeysOk, LogOk, LinkOk, KeyShape, RootShape, BundlesOrdered, KeysOrdered, DistinctSerials,
         RevokedRecorded, Apart, Tracked, HistoryOk, CanSign;
    ClockKeepsInv(w, now);
    SaveKeepsHistory(w, w.(clock := now));
    if w.view.Some? {
      TrackedFrame(w.store, w.store, w.view.value.issuer, w.clock, now);
    }
  }

  lemma ClockKeepsNode(w: World, now: int, m: Managed)
    requires ManagedOk(w, m) && w.clock <= now
    ensures ManagedOk(w.(clock := now), m)
  {
    hide Tracked, Honest, Placed;
    TrackedFrame(w.store, w.store, m.node.issuer, w.clock, now);
  }

  lemma RecordedStands(w: World)
    requires Inv(w) && ViewOk(w)
    ensures RevokedRecorded(w.store)
  {
  }

  lemma RootsShaped(w: World)
    requires Inv(w)
    ensures RootShape(w.store.roots)
  {
    hide RootsOk, IssuersOk, KeysOk, LogOk, LinkOk, RootShape;
  }

  lemma EventKeepsAll(w: World, e: Event, era: Era, members: seq<Managed>)
    requires Inv(w) && InOrder(w, e) && RevokedRecorded(w.store) && EraOk(w, era) && AllOk(w, era, members)
    ensures Inv(Next(w, e)) && AllOk(Next(w, e), NextEra(era, w, Next(w, e)), members)
  {
    hide RootsOk, IssuersOk, KeysOk, LogOk, LinkOk, Shape, Next, InOrder, Honest, Placed, Tracked, RevokedRecorded, NextEra, Sided,
         EraOk, ManagedOk, RootShape;
    NextKeepsInv(w, e);
    RootsShaped(w);
    RootsShaped(Next(w, e));
    forall i | 0 <= i < |members|
      ensures ManagedOk(Next(w, e), members[i]) && Sided(Next(w, e).store.roots, NextEra(era, w, Next(w, e)), members[i].node)
    {
      NextNode(w, e, members[i]);
      Numbered(w, members[i]);
      NextSided(w, e, era, members[i].node);
    }
  }

  lemma Numbered(w: World, m: Managed)
    requires ManagedOk(w, m)
    ensures m.node.leaf.serial < w.store.unused && m.node.issuer.signedBy < w.store.unused
  {
  }

  lemma ClockKeepsAll(w: World, now: int, era: Era, members: seq<Managed>)
    requires RootShape(w.store.roots) && AllOk(w, era, members) && w.clock <= now
    ensures AllOk(w.(clock := now), era, members)
  {
    hide ManagedOk, RootShape, Sided;
    forall i | 0 <= i < |members|
      ensures ManagedOk(w.(clock := now), members[i])
    {
      ClockKeepsNode(w, now, members[i]);
    }
  }

  lemma SpentKeeps(f: Fleet, now: int)
    requires FleetInv(f) && f.w.clock <= now
    ensures FleetInv(With(f, Spent(f.w, now)))
    ensures Spent(f.w, now).log == f.w.log && Spent(f.w, now).view == f.w.view && Spent(f.w, now).store.roots == f.w.store.roots
    ensures Spent(f.w, now).clock == now && Spent(f.w, now).store.unused == f.w.store.unused + 1
  {
    hide RootsOk, IssuersOk, KeysOk, LogOk, LinkOk, Shape, ViewOk, RevokedRecorded, HistoryOk, AllOk;
    assert KnownSerial(f.w, LeafIssued);
    var spent := Next(f.w, LeafIssued);
    NextView(f.w, LeafIssued);
    ClockKeepsView(spent, now);
    RecordedStands(f.w);
    NextEraOk(f.w, LeafIssued, f.era);
    RootsShaped(f.w);
    RootsShaped(spent);
    EventKeepsAll(f.w, LeafIssued, f.era, f.nodes);
    EventKeepsAll(f.w, LeafIssued, f.era, f.joining);
    ClockKeepsAll(spent, now, With(f, spent).era, f.nodes);
    ClockKeepsAll(spent, now, With(f, spent).era, f.joining);
  }

  lemma ViewIsLatest(w: World)
    requires Inv(w) && w.view.Some?
    ensures w.log != [] && w.view.value.bundle == Latest(w) && Latest(w).body.version == |w.log|
  {
    hide StoreOk;
  }

  /** A node that holds the view's bundle or its own, and a leaf of the view's intermediate or its own, is well placed. */
  lemma FreshNode(w: World, n: Node, leaf: Cert, issuer: Cert, held: Bundle)
    requires Inv(w) && ViewOk(w) && w.view.Some?
    requires held == w.view.value.bundle || (NodeOk(w, n) && held == n.held)
    requires (issuer == w.view.value.issuer && SignedBy(leaf, issuer) && leaf.notAfter <= issuer.notAfter)
          || (NodeOk(w, n) && leaf == n.leaf && issuer == n.issuer)
    requires leaf.serial < w.store.unused
    ensures NodeOk(w, Node(held, leaf, issuer))
  {
    hide StoreOk, LogOk, LinkOk, RevokedRecorded, Tracked, Apart, ViewLists;
    ViewIsLatest(w);
  }

  /** A node certified by the view, or found in order by it, is placed by the view's bundle. */
  lemma PlacedByView(w: World, r: Record, n: Node, now: int)
    requires Inv(w) && ViewSigns(w) && w.view.Some? && BundleTracks(w, n.issuer) && w.clock <= now
    requires r.bundleVersion == w.view.value.bundle.body.version
    requires n.issuer == w.view.value.issuer
          || (now <= n.issuer.notAfter && n.issuer.serial !in w.view.value.bundle.body.revoked)
    ensures Placed(w.log, r, n)
  {
    hide StoreOk, LogOk, LinkOk;
    ViewIsLatest(w);
  }

  lemma EnrollKeeps(f: Fleet, validity: int, now: int)
    requires FleetInv(f) && f.w.clock <= now
    ensures FleetInv(Move(f, Enroll(validity, now)))
  {
    hide RootsOk, IssuersOk, KeysOk, LogOk, LinkOk, Shape, ViewOk, NodeOk, HistoryOk, Placed, Spent, NextEra, Sided, EraOk;
    if f.w.view.Some? {
      var view := f.w.view.value;
      var issued := Issue(view.issuer, f.w.store.unused, f.w.store.unused, true, 1, validity, now);
      if issued.Ok? {
        SpentKeeps(f, now);
        ViewParts(f.w);
        var w, made := Spent(f.w, now), Enrolled(issued.value, view);
        ViewParts(w);
        FreshNode(w, made.node, issued.value, view.issuer, view.bundle);
        NodeParts(w, made.node);
        PlacedByView(w, made.record, made.node, now);
        assert ManagedOk(w, made);
        SpentSided(f, now, made.node);
      }
    }
  }

  lemma SpentSided(f: Fleet, now: int, n: Node)
    requires Inv(f.w) && EraOk(f.w, f.era) && f.w.view.Some?
    requires n.issuer == f.w.view.value.issuer && n.leaf.serial == f.w.store.unused
    ensures Sided(Spent(f.w, now).store.roots, With(f, Spent(f.w, now)).era, n)
  {
    hide RootsOk, IssuersOk, KeysOk, LogOk, LinkOk, RootShape, KeyShape, IssuerShape, BundlesOrdered, KeysOrdered, DistinctSerials,
         Sided, EraOk;
    FreshSided(f.w, f.era, n);
  }

  lemma ViewParts(w: World)
    requires Inv(w) && ViewOk(w)
    ensures ViewSigns(w) && (w.view.Some? ==> w.view.value.issuer.isCA)
  {
  }

  lemma NodeParts(w: World, n: Node)
    requires NodeOk(w, n)
    ensures BundleTracks(w, n.issuer) && n.leaf.serial < w.store.unused && n.leaf.notAfter <= n.issuer.notAfter
  {
  }

  /** A certificate whose life is not spent has not run out. */
  lemma LifeLeft(notBefore: int, notAfter: int, now: int)
    requires notBefore <= notAfter && !LifeSpent(notBefore, notAfter, now)
    ensures now <= notAfter
  {
  }

  /** After a sync of this node its record is placed, by this view or as before. */
  lemma SyncPlaces(w: World, m: Managed, number: nat, validity: int, now: int, calls: Calls)
    requires Inv(w) && ViewSigns(w) && w.view.Some? && w.clock <= now
    requires m.record.certSerial < number && m.node.leaf.serial < number && Honest(m.record, m.node) && Placed(w.log, m.record, m.node)
    requires m.node.held.body.version <= |w.log|
    requires var done := Sync(m.record, m.node, w.view.value, number, validity, now, calls);
             NodeOk(w, done.node)
    ensures var done := Sync(m.record, m.node, w.view.value, number, validity, now, calls);
            Placed(w.log, done.record, done.node)
  {
    hide StoreOk, LogOk, LinkOk, Sync, Placed, ViewSigns, NodeOk, LifeSpent;
    var done := Sync(m.record, m.node, w.view.value, number, validity, now, calls);
    if !calls.registered {
      Untouched(m, w.view.value, number, validity, now, calls);
    } else if !done.record.failed {
      SyncSettles(m.record, m.node, w.view.value, number, validity, now, calls);
      SyncStaysHonest(m.record, m.node, w.view.value, number, validity, now, calls);
      ViewIsLatest(w);
      NodeParts(w, done.node);
      NodeVersion(w, done.node);
      if done.node.issuer != w.view.value.issuer {
        LifeLeft(done.record.certNotBefore, done.record.certNotAfter, now);
      }
      PlacedByView(w, done.record, done.node, now);
    } else {
      FailedIsPlaced(w.log, done.record, done.node);
    }
  }

  lemma FailedIsPlaced(log: seq<Bundle>, r: Record, n: Node)
    requires r.failed
    ensures Placed(log, r, n)
  {
  }

  lemma NodeVersion(w: World, n: Node)
    requires NodeOk(w, n)
    ensures n.held.body.version <= |w.log|
  {
  }

  lemma Untouched(m: Managed, view: View, number: nat, validity: int, now: int, calls: Calls)
    requires !calls.registered
    ensures Sync(m.record, m.node, view, number, validity, now, calls) == Synced(m.record, m.node)
  {
  }

  lemma SyncKeeps(f: Fleet, at: nat, validity: int, now: int, calls: Calls)
    requires FleetInv(f) && Allowed(f, SyncOne(at, validity, now, calls))
    ensures FleetInv(Move(f, SyncOne(at, validity, now, calls)))
  {
    hide RootsOk, IssuersOk, KeysOk, LogOk, LinkOk, Shape, ViewOk, NodeOk, Sync, Adoptable, HistoryOk, Placed, Honest, Spent, NextEra,
         Sided, EraOk;
    if f.w.view.Some? {
      RootsShaped(f.w);
      var m, w := f.nodes[at], Spent(f.w, now);
      var done := Sync(m.record, m.node, f.w.view.value, f.w.store.unused, validity, now, calls);
      assert ManagedOk(f.w, m);
      NodeParts(f.w, m.node);
      NodeVersion(f.w, m.node);
      SyncStaysHonest(m.record, m.node, f.w.view.value, f.w.store.unused, validity, now, calls);
      SpentKeeps(f, now);
      assert ManagedOk(w, m);
      FreshNode(w, m.node, done.node.leaf, done.node.issuer, done.node.held);
      ViewParts(w);
      SyncPlaces(w, m, f.w.store.unused, validity, now, calls);
      assert ManagedOk(w, Managed(done.record, done.node));
      if done.node.leaf == m.node.leaf && done.node.issuer == m.node.issuer {
        SidedByCertificate(w.store.roots, With(f, w).era, m.node, done.node);
      } else {
        SpentSided(f, now, done.node);
      }
    }
  }

  lemma SidedByCertificate(roots: seq<Root>, era: Era, n: Node, m: Node)
    requires RootShape(roots) && Sided(roots, era, n) && m.issuer == n.issuer && m.leaf == n.leaf
    ensures Sided(roots, era, m)
  {
  }

  lemma EventKeeps(f: Fleet, e: Event)
    requires FleetInv(f) && InOrder(f.w, e) && KnownSerial(f.w, e)
    ensures Shape(f.w.store) && FleetInv(With(f, Next(f.w, e)))
  {
    hide RootsOk, IssuersOk, KeysOk, LogOk, LinkOk, Shape, ViewOk, ManagedOk, Next, InOrder, HistoryOk, KnownSerial, RevokedRecorded,
         AllOk, EraOk, NextEra;
    NextView(f.w, e);
    RecordedStands(f.w);
    NextEraOk(f.w, e, f.era);
    EventKeepsAll(f.w, e, f.era, f.nodes);
    EventKeepsAll(f.w, e, f.era, f.joining);
  }

  lemma MoveKeeps(f: Fleet, step: Step)
    requires FleetInv(f) && Allowed(f, step)
    ensures Shape(f.w.store) && FleetInv(Move(f, step))
  {
    hide ViewOk, ManagedOk, LogOk, LinkOk, IssuersOk, KeysOk, RootsOk, Next, RootUnused, Confirmed, Sync, Issue, HistoryOk, EraOk,
         Sided, NextEra;
    match step
    case Authority(event) => EventKeeps(f, event);
    case Promote(_, now) => EventKeeps(f, PromotionSaved(now));
    case Enroll(validity, now) => EnrollKeeps(f, validity, now);
    case Join(_) =>
    case BeginPass =>
    case SyncOne(at, validity, now, calls) => SyncKeeps(f, at, validity, now, calls);
    case Retire => EventKeeps(f.(listed := None), RetirementSaved);
  }

  // ---------- Runs ----------

  ghost predicate Moves(f: Fleet, steps: seq<Step>)
    requires FleetInv(f)
    decreases |steps|
  {
    steps == [] || (Allowed(f, steps[0]) && (MoveKeeps(f, steps[0]); Moves(Move(f, steps[0]), steps[1..])))
  }

  ghost function MoveAll(f: Fleet, steps: seq<Step>): (end: Fleet)
    requires FleetInv(f) && Moves(f, steps)
    ensures FleetInv(end)
    decreases |steps|
  {
    if steps == [] then f
    else
      MoveKeeps(f, steps[0]);
      MoveAll(Move(f, steps[0]), steps[1..])
  }

  lemma StartFleet(clock: int)
    ensures FleetInv(Empty(clock))
  {
    StartInv(clock);
  }

  ghost predicate ComesTo(clock: int, steps: seq<Step>, f: Fleet) {
    StartFleet(clock);
    Moves(Empty(clock), steps) && MoveAll(Empty(clock), steps) == f
  }

  lemma {:induction false} OneStepOn(f: Fleet, steps: seq<Step>, step: Step)
    requires FleetInv(f) && Moves(f, steps) && Allowed(MoveAll(f, steps), step)
    ensures Moves(f, steps + [step]) && Shape(MoveAll(f, steps).w.store)
    ensures MoveAll(f, steps + [step]) == Move(MoveAll(f, steps), step)
    decreases |steps|
  {
    hide FleetInv, Move, Allowed;
    MoveKeeps(MoveAll(f, steps), step);
    if steps == [] {
      assert [] + [step] == [step] && [step][1..] == [];
    } else {
      MoveKeeps(f, steps[0]);
      OneStepOn(Move(f, steps[0]), steps[1..], step);
      assert (steps + [step])[0] == steps[0] && (steps + [step])[1..] == steps[1..] + [step];
    }
  }

  lemma ComesAtStart(clock: int)
    ensures ComesTo(clock, [], Empty(clock)) && FleetInv(Empty(clock))
  {
    StartFleet(clock);
  }

  lemma ComesOn(clock: int, steps: seq<Step>, f: Fleet, step: Step)
    requires ComesTo(clock, steps, f) && Allowed(f, step)
    ensures FleetInv(f) && Shape(f.w.store)
    ensures ComesTo(clock, steps + [step], Move(f, step)) && FleetInv(Move(f, step))
  {
    hide FleetInv, Move, Allowed;
    StartFleet(clock);
    OneStepOn(Empty(clock), steps, step);
    MoveKeeps(f, step);
  }

  /** Some run from an empty store, with no node enrolled, ends here. */
  ghost predicate FleetReachable(f: Fleet) {
    exists clock: int, steps: seq<Step> :: ComesTo(clock, steps, f)
  }

  lemma FleetReachableOk(f: Fleet)
    requires FleetReachable(f)
    ensures FleetInv(f)
  {
    var clock, steps :| ComesTo(clock, steps, f);
    StartFleet(clock);
  }

  /** What an enrollment leaves: a certificate of the intermediate in view, on the bundle in view, and a record that says so. */
  lemma EnrolledExactly(f: Fleet, validity: int, now: int)
    requires FleetInv(f) && f.w.clock <= now
    ensures var g := Move(f, Enroll(validity, now));
            var number := f.w.store.unused;
            var issued := if f.w.view.Some? then Some(Issue(f.w.view.value.issuer, number, number, true, 1, validity, now)) else None;
            if issued.Some? && issued.value.Ok? then
              var (view, leaf) := (f.w.view.value, issued.value.value);
              && g.nodes == f.nodes && |g.joining| == |f.joining| + 1 && g.joining[..|f.joining|] == f.joining
              && g.joining[|f.joining|].node == Node(view.bundle, leaf, view.issuer)
              && g.joining[|f.joining|].record ==
                 Record(view.bundle.body.version, leaf.serial, Some(view.issuer.serial), leaf.notBefore, leaf.notAfter, false)
            else
              g == f
  {
    hide RootsOk, IssuersOk, KeysOk, LogOk, LinkOk, ViewOk, HistoryOk, EraOk, AllOk, Issue, NextEra, Spent;
  }

  /** A pass ends with its look at the retired root or with the process, and enrollments under way with the process alone. */
  lemma PassEnds(f: Fleet, step: Step)
    requires FleetInv(f) && Allowed(f, step)
    ensures Shape(f.w.store)
    ensures var g := Move(f, step);
            && (f.listed.Some? && g.listed.None? <==> f.listed.Some? && (step.Retire? || step == Authority(Restart)))
            && (g.listed != f.listed && g.listed.Some? ==> step.BeginPass? && g.listed == Some(|f.nodes|))
            && (step == Authority(Restart) ==> g.joining == [] && g.w.view.None?)
            && (|g.joining| < |f.joining| ==> step.Join? || step == Authority(Restart))
            && (step.Join? ==> g.nodes == f.nodes + [f.joining[step.of]])
            && |f.nodes| <= |g.nodes|
  {
    hide RootsOk, IssuersOk, KeysOk, LogOk, LinkOk, ViewOk, HistoryOk, EraOk, AllOk, NextEra, Issue, Sync, RootUnused, Confirmed, Spent;
  }
}
