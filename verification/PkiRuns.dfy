/** What holds of every run of the authority, from an empty store. */
module PkiRuns {
  import opened PkiTypes
  import opened PkiBundle
  import opened PkiPass
  import opened PkiWorld
  import opened PkiInvariant
  import opened PkiHistory

  /** Events whose times never run backwards. */
  ghost predicate Ordered(w: World, events: seq<Event>)
    requires Inv(w)
    decreases |events|
  {
    events == [] ||
    (&& InOrder(w, events[0])
     && (NextKeepsInv(w, events[0]); Ordered(Next(w, events[0]), events[1..])))
  }

  ghost function Run(w: World, events: seq<Event>): (end: World)
    requires Inv(w) && Ordered(w, events)
    ensures Inv(end)
    decreases |events|
  {
    if events == [] then w
    else
      NextKeepsInv(w, events[0]);
      Run(Next(w, events[0]), events[1..])
  }

  lemma {:induction false} RunsJoin(w: World, first: seq<Event>, second: seq<Event>)
    requires Inv(w) && Ordered(w, first) && Ordered(Run(w, first), second)
    ensures Ordered(w, first + second) && Run(w, first + second) == Run(Run(w, first), second)
    decreases |first|
  {
    hide Next, InOrder, RootsOk, IssuersOk, KeysOk, LogOk, LinkOk;
    if first == [] {
      assert first + second == second;
    } else {
      NextKeepsInv(w, first[0]);
      assert (first + second)[0] == first[0] && (first + second)[1..] == first[1..] + second;
      RunsJoin(Next(w, first[0]), first[1..], second);
    }
  }

  lemma RunOne(w: World, e: Event)
    requires Inv(w) && InOrder(w, e)
    ensures Ordered(w, [e]) && Run(w, [e]) == Next(w, e)
  {
    hide Next, InOrder;
    NextKeepsInv(w, e);
    assert [e][1..] == [];
    assert Run(Next(w, e), []) == Next(w, e);
  }

  // ---------- Every step, and so every run, keeps the history ----------

  lemma SaveKeepsHistory(w: World, w': World)
    requires Inv(w) && HistoryOk(w) && KeyShape(w'.store.keys)
    requires w'.log == w.log && w'.store.keys == w.store.keys && w.store.unused <= w'.store.unused && w.clock <= w'.clock
    ensures HistoryOk(w')
  {
    hide StoreOk, LogOk, LinkOk, Chained, ListedSince;
  }

  lemma NextKeepsHistory(w: World, e: Event)
    requires Inv(w) && InOrder(w, e) && HistoryOk(w)
    ensures Inv(Next(w, e)) && HistoryOk(Next(w, e))
  {
    hide RootsOk, IssuersOk, KeysOk, LogOk, LinkOk, Chained, ListedSince, HistoryOk, Pass, Listed, RevokeListed;
    NextKeepsInv(w, e);
    if e.PassRun? {
      PassKeepsHistory(w, e.now);
    } else {
      SaveKeepsHistory(w, Next(w, e));
    }
  }

  lemma {:induction false} RunKeepsHistory(w: World, events: seq<Event>)
    requires Inv(w) && HistoryOk(w) && Ordered(w, events)
    ensures HistoryOk(Run(w, events))
    decreases |events|
  {
    hide HistoryOk, Next, InOrder, RootsOk, IssuersOk, KeysOk, LogOk, LinkOk;
    if events != [] {
      NextKeepsHistory(w, events[0]);
      RunKeepsHistory(Next(w, events[0]), events[1..]);
    }
  }

  /** Some run from an empty store ends in this state. */
  ghost predicate Reachable(w: World) {
    exists clock: int, events: seq<Event> :: RunsTo(clock, events, w)
  }

  ghost predicate RunsTo(clock: int, events: seq<Event>, w: World) {
    StartInv(clock);
    Ordered(Start(clock), events) && Run(Start(clock), events) == w
  }

  lemma ReachableOk(w: World)
    requires Reachable(w)
    ensures Inv(w) && HistoryOk(w)
  {
    var clock, events :| RunsTo(clock, events, w);
    StartInv(clock);
    RunKeepsHistory(Start(clock), events);
  }

  // ---------- Adopting one bundle after another ----------

  /** What time leaves of a published bundle, for a node that holds the one before. */
  ghost predicate StillGood(b: Bundle, at: int) {
    && |b.body.intermediates| <= MAX_BUNDLE_ISSUERS
    && |b.body.revoked| <= MAX_REVOKED_SERIALS
    && (forall i | 0 <= i < |b.body.roots| :: at <= b.body.roots[i].notAfter)
    && (forall i | 0 <= i < |b.body.intermediates| :: at <= b.body.intermediates[i].notAfter)
    && (exists e :: SignedWith(b, e) && at < e.notAfter)
  }

  lemma WellFormedAt(b: Body, at: int)
    requires BodySound(b)
    ensures WellFormed(b, at) <==>
              && |b.intermediates| <= MAX_BUNDLE_ISSUERS
              && |b.revoked| <= MAX_REVOKED_SERIALS
              && (forall i | 0 <= i < |b.roots| :: at <= b.roots[i].notAfter)
              && (forall i | 0 <= i < |b.intermediates| :: at <= b.intermediates[i].notAfter)
  {
    hide Rooted;
    if WellFormed(b, at) {
      assert forall i | 0 <= i < |b.roots| :: UsableRoot(b.roots[i], at);
    }
  }

  /** The signature counts for a node exactly while the entry it knows has not run out. */
  lemma GenuineAt(candidate: Bundle, held: Body, e: BundleKey, at: int)
    requires DistinctIds(held.keys) && e in held.keys && SignedWith(candidate, e)
    ensures Genuine(candidate, PublicKeys(held.keys, at)) <==> at < e.notAfter
  {
    var k :| 0 <= k < |held.keys| && held.keys[k] == e;
    if at < e.notAfter {
      PublicKeysHold(held.keys, at, k);
    }
  }

  lemma SignerUnique(b: Bundle, e: BundleKey, f: BundleKey)
    requires DistinctIds(b.body.keys) && SignedWith(b, e) && SignedWith(b, f)
    ensures e == f
  {
    var i :| 0 <= i < |b.body.keys| && b.body.keys[i] == e;
    var j :| 0 <= j < |b.body.keys| && b.body.keys[j] == f;
    assert i == j;
  }

  /**
  In every run a node that holds a bundle takes the next one at some instant if
  and only if the bundle fits and neither its certificates nor its signing key
  have run out by then.
  */
  lemma NextBundleAdoptable(w: World, j: nat, at: int)
    requires Reachable(w) && 1 <= j < |w.log|
    ensures Adoptable(w.log[j], w.log[j - 1], at) <==> StillGood(w.log[j], at)
  {
    ReachableOk(w);
    hide Inv, HistoryOk, SharesRoot, StillGood, Adoptable, Reachable;
    NextShares(w, j);
    LaterBundleAdoptable(w, j - 1, j, at);
  }

  lemma NextShares(w: World, j: nat)
    requires Inv(w) && HistoryOk(w) && 1 <= j < |w.log|
    ensures SharesRoot(w.log[j].body, w.log[j - 1].body)
  {
    hide StoreOk, LinkOk, BodySound, SharesRoot, ListedSince, SignedWith;
    assert Chained(w.log, j);
  }

  /**
  A node several bundles behind takes a later one directly, skipping those between,
  if and only if that is still good: as long as the two share a root and the bundle
  after the one it holds is at most the promotion delay older.
  */
  lemma LaterBundleAdoptable(w: World, i: nat, j: nat, at: int)
    requires Inv(w) && HistoryOk(w) && i < j < |w.log| && Recent(w.log, i, j) && SharesRoot(w.log[j].body, w.log[i].body)
    ensures Adoptable(w.log[j], w.log[i], at) <==> StillGood(w.log[j], at)
  {
    hide Inv, HistoryOk, BodySound, WellFormed, Genuine, PublicKeys, SharesRoot, SignedWith, DistinctIds, Recent;
    var b, held := w.log[j], w.log[i];
    var e := LaterIsChained(w, i, j);
    WellFormedAt(b.body, at);
    GenuineAt(b, held.body, e, at);
    forall f | SignedWith(b, f)
      ensures f == e
    {
      SignerUnique(b, e, f);
    }
  }

  /** What the history says of one bundle and a recent one before it. */
  lemma LaterIsChained(w: World, i: nat, j: nat) returns (e: BundleKey)
    requires Inv(w) && HistoryOk(w) && i < j < |w.log| && Recent(w.log, i, j)
    ensures BodySound(w.log[j].body) && DistinctIds(w.log[j].body.keys) && DistinctIds(w.log[i].body.keys)
    ensures SignedWith(w.log[j], e) && e in w.log[i].body.keys
    ensures w.log[j].body.version > w.log[i].body.version
  {
    hide StoreOk, LinkOk, BodySound, SharesRoot, ListedSince, SignedWith, DistinctIds;
    assert Chained(w.log, j) && Chained(w.log, i);
    e :| SignedWith(w.log[j], e) && forall k: nat | k < j && Recent(w.log, k, j) :: e in w.log[k].body.keys;
    SoundIds(w.log[j].body);
    SoundIds(w.log[i].body);
  }

  lemma SoundIds(b: Body)
    requires BodySound(b)
    ensures DistinctIds(b.keys)
  {
  }

  /** A bundle's signing key is known to every node at most the promotion delay behind. */
  lemma SignerKnownToRecentNodes(w: World, i: nat, j: nat)
    requires Reachable(w) && i < j < |w.log|
    requires w.log[i + 1].body.issuedAt > w.log[j].body.issuedAt - SIGNING_PROMOTE_AFTER
    ensures exists e :: SignedWith(w.log[j], e) && e in w.log[i].body.keys
  {
    ReachableOk(w);
    hide StoreOk, LinkOk, BodySound, SharesRoot, ListedSince, SignedWith;
    assert Chained(w.log, j);
    var e :| SignedWith(w.log[j], e) && forall k: nat | k < j && Recent(w.log, k, j) :: e in w.log[k].body.keys;
    assert Recent(w.log, i, j);
  }

  // ---------- Roots and intermediates ----------

  /** A published authority has one active root, and never both a next and a retired one. */
  lemma OneActiveRoot(w: World)
    requires Reachable(w) && w.log != []
    ensures 1 <= |w.store.roots| <= 2
    ensures exists a :: 0 <= a < |w.store.roots| && w.store.roots[a].state == RootActive
    ensures forall i, j | 0 <= i < j < |w.store.roots| ::
              && w.store.roots[i].cert.key != w.store.roots[j].cert.key
              && (w.store.roots[i].state == RootActive) != (w.store.roots[j].state == RootActive)
  {
    ReachableOk(w);
    hide LogOk, KeysOk, KeyShape, KeysOrdered, BundlesOrdered, HistoryOk, IssuersOk, IssuerShape, RootShape, RootsOk,
         DistinctSerials;
    RootStates(w.store, w.clock);
  }

  lemma RootStates(s: Store, clock: int)
    requires RootShape(s.roots) && s.roots != [] && RootsOk(s, clock)
    ensures 1 <= |s.roots| <= 2
    ensures exists a :: 0 <= a < |s.roots| && s.roots[a].state == RootActive
    ensures forall i, j | 0 <= i < j < |s.roots| ::
              s.roots[i].cert.key != s.roots[j].cert.key && (s.roots[i].state == RootActive) != (s.roots[j].state == RootActive)
  {
    assert s.roots[ActiveRootIndex(s.roots)].state == RootActive;
    forall i, j | 0 <= i < j < |s.roots|
      ensures s.roots[i].cert.key != s.roots[j].cert.key
    {
      assert s.roots[i].cert.serial < s.roots[j].cert.serial;
    }
  }

  /**
  It has one active intermediate, the newest, signed by the active root; and
  every intermediate lies inside the window of a root that signs or signed.
  */
  lemma OneActiveIssuer(w: World)
    requires Reachable(w) && w.log != []
    ensures w.store.issuers != []
    ensures forall i | 0 <= i < |w.store.issuers| ::
              && (w.store.issuers[i].state == IssuerActive <==> i == |w.store.issuers| - 1)
              && Anchored(w.store.issuers[i].cert, w.store.roots)
    ensures exists a :: 0 <= a < |w.store.roots| && w.store.roots[a].state == RootActive &&
                        SignedBy(w.store.issuers[|w.store.issuers| - 1].cert, w.store.roots[a].cert)
  {
    ReachableOk(w);
    hide LogOk, KeysOk, KeyShape, BundlesOrdered, HistoryOk, RootsOk, Anchored, SignedBy, Follows;
    forall i | 0 <= i < |w.store.issuers|
      ensures Anchored(w.store.issuers[i].cert, w.store.roots)
    {
      assert IssuerOk(w.store.issuers[i], w.store, w.clock);
    }
    var at := ActiveRootIndex(w.store.roots);
    assert w.store.roots[at].state == RootActive;
    assert SignedBy(w.store.issuers[|w.store.issuers| - 1].cert, w.store.roots[at].cert);
  }

  /** One key signs, at most two are published, and a successor waits out its delay. */
  lemma OneSigner(w: World)
    requires Reachable(w) && w.log != []
    ensures 1 <= |w.store.keys| <= 2
    ensures exists a :: 0 <= a < |w.store.keys| && w.store.keys[a].state == KeyActive &&
                        (w.store.keys[a].id == w.log[0].keyId || w.store.keys[a].created + SIGNING_PROMOTE_AFTER <= w.clock)
    ensures forall i, j | 0 <= i < j < |w.store.keys| :: (w.store.keys[i].state == KeyActive) != (w.store.keys[j].state == KeyActive)
  {
    ReachableOk(w);
    hide LogOk, IssuersOk, RootsOk, BundlesOrdered, Chained, ListedSince;
    var at := if w.store.keys[|w.store.keys| - 1].state == KeyActive then |w.store.keys| - 1 else 0;
    assert w.store.keys[at] == ActiveKey(w.store.keys);
  }
}
