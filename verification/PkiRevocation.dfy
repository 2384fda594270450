/**
A revoked serial stays in every bundle until a day after its recorded end, and
a node that presents it is refused.
*/
module PkiRevocation {
  import opened Wrappers
  import opened PkiTypes
  import opened PkiBundle
  import opened PkiPass
  import opened PkiWorld
  import opened PkiInvariant
  import opened PkiRuns

  // ---------- The serials of a bundle ----------

  predicate Ascending(serials: seq<nat>) {
    forall i, j | 0 <= i < j < |serials| :: serials[i] <= serials[j]
  }

  lemma {:induction false} InsertedInOrder(serials: seq<nat>, serial: nat)
    requires Ascending(serials)
    ensures Ascending(InsertSerial(serials, serial))
  {
    if serials != [] && serial > serials[0] {
      var rest := serials[1..];
      InsertedInOrder(rest, serial);
      var inserted := InsertSerial(rest, serial);
      forall j | 0 <= j < |inserted|
        ensures serials[0] <= inserted[j]
      {
        assert inserted[j] in inserted;
      }
    }
  }

  predicate HasSerial(revocations: seq<Revocation>, n: nat) {
    exists r :: r in revocations && r.serial == n
  }

  /** The published list is sorted and holds exactly the serials of the stored revocations. */
  lemma {:induction false} PublishedSerials(revocations: seq<Revocation>)
    ensures |SortedSerials(revocations)| == |revocations|
    ensures Ascending(SortedSerials(revocations))
    ensures forall n :: n in SortedSerials(revocations) <==> HasSerial(revocations, n)
  {
    if revocations != [] {
      var last := |revocations| - 1;
      var before := revocations[..last];
      PublishedSerials(before);
      InsertedInOrder(SortedSerials(before), revocations[last].serial);
      assert revocations == before + [revocations[last]];
      forall n
        ensures HasSerial(revocations, n) <==> HasSerial(before, n) || n == revocations[last].serial
      {
        assert n == revocations[last].serial ==> revocations[last] in revocations;
      }
    }
  }

  // ---------- A revocation across a run ----------

  /** Revoking this intermediate again would not record an earlier end than this. */
  predicate Agrees(issuer: Issuer, serial: nat, until: int) {
    issuer.cert.serial == serial ==> issuer.state == IssuerRevoked || issuer.cert.notAfter >= until
  }

  predicate KeptUntil(revocations: seq<Revocation>, serial: nat, until: int) {
    exists r :: r in revocations && r.serial == serial && r.notAfter >= until
  }

  /** The serial is one that was given out, it is revoked until then, and nothing stored can shorten that. */
  ghost predicate Holding(s: Store, serial: nat, until: int) {
    && KeptUntil(s.revocations, serial, until)
    && serial < s.unused
    && forall i | 0 <= i < |s.issuers| :: Agrees(s.issuers[i], serial, until)
  }

  /** The time until which a revocation is kept. */
  predicate WithinKeep(e: Event, until: int) {
    e.PassRun? ==> e.now <= until + REVOCATION_KEEP
  }

  /** From some bundle on, all list the serial. */
  predicate ListedFrom(log: seq<Bundle>, from: nat, serial: nat) {
    forall j | from <= j < |log| :: serial in log[j].body.revoked
  }

  lemma PutKeepsUntil(revocations: seq<Revocation>, r: Revocation, serial: nat, until: int)
    requires DistinctSerials(revocations)
    requires r.serial == serial ==> r.notAfter >= until
    requires KeptUntil(revocations, serial, until) || r.serial == serial
    ensures KeptUntil(PutRevocation(revocations, r), serial, until)
  {
    PutKeepsDistinct(revocations, r);
    var after := PutRevocation(revocations, r);
    if r.serial == serial {
      assert r in after;
    } else {
      var x :| x in revocations && x.serial == serial && x.notAfter >= until;
      assert x in after;
    }
  }

  lemma {:induction false} RevokeListedKeeps(issuers: seq<Issuer>, revocations: seq<Revocation>, serial: nat, until: int)
    requires DistinctSerials(revocations) && KeptUntil(revocations, serial, until)
    requires forall i | 0 <= i < |issuers| :: Agrees(issuers[i], serial, until)
    ensures KeptUntil(RevokeListed(issuers, revocations), serial, until)
  {
    if issuers != [] {
      var last := |issuers| - 1;
      RevokeListedKeeps(issuers[..last], revocations, serial, until);
      RevokeListedDistinct(issuers[..last], revocations);
      if issuers[last].state != IssuerRevoked {
        PutKeepsUntil(RevokeListed(issuers[..last], revocations),
                      Revocation(issuers[last].cert.serial, issuers[last].cert.notAfter), serial, until);
      }
    }
  }

  lemma LiveKeepsUntil(revocations: seq<Revocation>, serial: nat, until: int, now: int)
    requires KeptUntil(revocations, serial, until) && now <= until + REVOCATION_KEEP
    ensures KeptUntil(LiveRevocations(revocations, now), serial, until)
  {
    var r :| r in revocations && r.serial == serial && r.notAfter >= until;
    assert RevocationLive(r, now);
    assert r in LiveRevocations(revocations, now);
  }

  lemma RefreshedHolds(s: Store, serial: nat, until: int, clock: int, now: int)
    requires StoreOk(s, clock) && clock <= now && Refreshed(s, now).Ok?
    requires Holding(s, serial, until) && now <= until + REVOCATION_KEEP
    ensures Holding(Refreshed(s, now).value.0, serial, until)
  {
    hide KeyShape, KeysOrdered, BundlesOrdered, DistinctSerials, RootsOk, IssuersOk, KeysOk, ManageKeys, RootShape, KeptUntil,
         LiveRevocations, Refreshed;
    var unused := RefreshedParts(s, clock, now);
    LiveKeepsUntil(s.revocations, serial, until, now);
    var t := Refreshed(s, now).value.0;
    forall i | 0 <= i < |t.issuers|
      ensures Agrees(t.issuers[i], serial, until)
    {
      RefreshedIssuer(s, now, t.issuers[i]);
    }
  }

  /** An intermediate of a pass was stored before, perhaps active, or has a new serial. */
  lemma RefreshedIssuer(s: Store, now: int, x: Issuer)
    requires Shape(s) && Refreshed(s, now).Ok?
    requires x in Refreshed(s, now).value.0.issuers
    ensures x.cert.serial >= s.unused
         || x in s.issuers
         || exists i :: 0 <= i < |s.issuers| && s.issuers[i].cert == x.cert && s.issuers[i].state == IssuerActive
  {
    hide KeyShape, KeysOrdered, BundlesOrdered, DistinctSerials, ManageKeys, RootShape;
    var rooted := WithRoot(s, now);
    var r := Renew(ActiveRoot(rooted.roots), rooted.issuers, rooted.unused, now);
    assert x in r.issuers;
    if r.issuers != s.issuers {
      var k :| 0 <= k < |r.issuers| && r.issuers[k] == x;
      if k < |r.issuers| - 2 {
        assert x == s.issuers[k];
      } else if k == |r.issuers| - 2 {
        assert s.issuers[k].cert == x.cert && s.issuers[k].state == IssuerActive;
      }
    }
  }

  lemma FinishedListed(w: World, t: Store, blocked: bool, serial: nat, now: int, from: nat)
    requires RootShape(t.roots) && t.roots != [] && KeyShape(t.keys) && t.keys != [] && t.issuers != []
    requires HasSerial(t.revocations, serial) && ListedFrom(w.log, from, serial)
    ensures var pass := Finish(t, blocked, now);
            && ListedFrom(After(w, pass, now).log, from, serial)
            && pass.Passed? && serial in pass.view.bundle.body.revoked
            && pass.store.revocations == t.revocations && pass.store.issuers == t.issuers && pass.store.unused == t.unused
  {
    hide RootCerts, Listed, LastBundles, RootShape, KeyShape, ActiveKey, Entries, SortedSerials, RotationPhase, RetiredIssuers;
    PublishedSerials(t.revocations);
    LastOfAppend(t.bundles, Sign(Desired(t, now), ActiveKey(t.keys)));
  }

  lemma LastOfAppend(bundles: seq<Bundle>, b: Bundle)
    ensures LastBundles(bundles + [b]) != [] && LastBundles(bundles + [b])[|LastBundles(bundles + [b])| - 1] == b
  {
  }

  /** The view in memory, if there is one, lists the serial. */
  predicate Shown(w: World, serial: nat) {
    w.view.Some? ==> serial in w.view.value.bundle.body.revoked
  }

  /** A pass in that time lists the serial, and leaves a view that does. */
  lemma PassHolds(w: World, now: int, serial: nat, until: int, from: nat)
    requires Inv(w) && w.clock <= now <= until + REVOCATION_KEEP && Holding(w.store, serial, until)
    requires ListedFrom(w.log, from, serial) && Refreshed(w.store, now).Ok?
    ensures var w' := Next(w, PassRun(now));
            Holding(w'.store, serial, until) && ListedFrom(w'.log, from, serial) && w'.view.Some? && Shown(w', serial)
  {
    hide RootsOk, IssuersOk, KeysOk, LogOk, LinkOk, Refreshed, Finish, KeyShape, RootShape, BundlesOrdered, KeysOrdered, ListedFrom;
    RefreshedOk(w.store, w.clock, now);
    RefreshedHolds(w.store, serial, until, w.clock, now);
    var (t, blocked) := Refreshed(w.store, now).value;
    HeldStored(t, serial, until);
    FinishedListed(w, t, blocked, serial, now, from);
  }

  lemma HeldStored(s: Store, serial: nat, until: int)
    requires Holding(s, serial, until)
    ensures HasSerial(s.revocations, serial)
  {
  }

  lemma NextHolds(w: World, e: Event, serial: nat, until: int, from: nat)
    requires Inv(w) && InOrder(w, e) && Holding(w.store, serial, until) && WithinKeep(e, until)
    requires ListedFrom(w.log, from, serial)
    ensures Inv(Next(w, e)) && Holding(Next(w, e).store, serial, until) && ListedFrom(Next(w, e).log, from, serial)
    ensures Shown(w, serial) ==> Shown(Next(w, e), serial)
  {
    hide RootsOk, IssuersOk, KeysOk, LogOk, LinkOk, Refreshed, Finish, Listed, KeyShape, RootShape, BundlesOrdered,
         KeysOrdered, ListedFrom, KeptUntil;
    NextKeepsInv(w, e);
    if e.PassRun? && Refreshed(w.store, e.now).Ok? {
      PassHolds(w, e.now, serial, until, from);
    } else if !e.PassRun? {
      SavedHolds(w, e, serial, until);
    }
  }

  lemma SavedHolds(w: World, e: Event, serial: nat, until: int)
    requires Inv(w) && InOrder(w, e) && Holding(w.store, serial, until) && !e.PassRun?
    ensures Holding(Next(w, e).store, serial, until)
  {
    hide RootsOk, IssuersOk, KeysOk, LogOk, LinkOk, Listed, KeyShape, RootShape, BundlesOrdered, KeysOrdered, RevokeListed;
    if e.IntermediateSaved? && e.revokePrevious {
      RevokeListedKeeps(w.store.issuers, w.store.revocations, serial, until);
    }
    if e.RetirementSaved? && InPhase(w, PhasePromoted) && SaveRetirement(w.store).Ok? {
      var kept := SaveRetirement(w.store).value.issuers;
      forall i | 0 <= i < |kept|
        ensures Agrees(kept[i], serial, until)
      {
        assert kept[i] in w.store.issuers;
      }
    }
  }

  lemma {:induction false} RunHolds(w: World, events: seq<Event>, serial: nat, until: int, from: nat)
    requires Inv(w) && Ordered(w, events) && Holding(w.store, serial, until) && ListedFrom(w.log, from, serial)
    requires forall e | e in events :: WithinKeep(e, until)
    ensures Holding(Run(w, events).store, serial, until) && ListedFrom(Run(w, events).log, from, serial)
    ensures Shown(w, serial) ==> Shown(Run(w, events), serial)
    decreases |events|
  {
    hide Next, InOrder, RootsOk, IssuersOk, KeysOk, LogOk, LinkOk, ListedFrom, Holding, Shown;
    if events != [] {
      NextHolds(w, events[0], serial, until, from);
      RunHolds(Next(w, events[0]), events[1..], serial, until, from);
    }
  }

  /** The end a revocation is saved with. */
  function SavedEnd(notAfter: Option<int>, now: int): int {
    if notAfter.Some? then notAfter.value else now + MAX_LEAF_VALIDITY
  }

  lemma SavedIsHeld(w: World, serial: nat, notAfter: Option<int>, now: int, until: int)
    requires Inv(w) && w.clock <= now && serial < w.store.unused && SaveRevocation(w.store, serial, notAfter, now).Ok?
    requires KeptUntil(w.store.revocations, serial, until)
          || (!HasSerial(w.store.revocations, serial) && until <= SavedEnd(notAfter, now))
    requires forall i | 0 <= i < |w.store.issuers| :: Agrees(w.store.issuers[i], serial, until)
    ensures var w' := Next(w, RevocationSaved(serial, notAfter, now));
            Inv(w') && Holding(w'.store, serial, until) && w'.log == w.log
  {
    hide RootsOk, IssuersOk, KeysOk, LogOk, LinkOk, KeyShape, RootShape, BundlesOrdered, KeysOrdered, Agrees, DistinctSerials;
    NextKeepsInv(w, RevocationSaved(serial, notAfter, now));
    var s := Next(w, RevocationSaved(serial, notAfter, now)).store;
    if HasSerial(w.store.revocations, serial) {
      assert s.revocations == w.store.revocations;
    } else {
      var made := Revocation(serial, SavedEnd(notAfter, now));
      assert made in s.revocations;
    }
  }

  /**
  From a successful revocation of a serial that was given out, until a day after
  its recorded end, whatever else happens: it stays stored, every bundle published
  lists it, and from the next pass on every view does. For a stored intermediate
  its own end counts too, as a revoking rotation records that one.
  */
  lemma RevokedFromThenOn(w: World, serial: nat, notAfter: Option<int>, now: int, until: int, events: seq<Event>)
    requires Inv(w) && w.clock <= now && serial < w.store.unused && SaveRevocation(w.store, serial, notAfter, now).Ok?
    requires KeptUntil(w.store.revocations, serial, until)
          || (!HasSerial(w.store.revocations, serial) && until <= SavedEnd(notAfter, now))
    requires forall i | 0 <= i < |w.store.issuers| && w.store.issuers[i].cert.serial == serial :: until <= w.store.issuers[i].cert.notAfter
    requires forall e | e in events :: WithinKeep(e, until)
    requires (NextKeepsInv(w, RevocationSaved(serial, notAfter, now));
              Ordered(Next(w, RevocationSaved(serial, notAfter, now)), events))
    ensures var w' := Next(w, RevocationSaved(serial, notAfter, now));
            var end := (NextKeepsInv(w, RevocationSaved(serial, notAfter, now)); Run(w', events));
            Holding(end.store, serial, until) && ListedFrom(end.log, |w.log|, serial)
  {
    hide RootsOk, IssuersOk, KeysOk, LogOk, LinkOk, KeyShape, RootShape, BundlesOrdered, KeysOrdered, ListedFrom, Holding, KeptUntil,
         Next, InOrder;
    assert forall i | 0 <= i < |w.store.issuers| :: Agrees(w.store.issuers[i], serial, until);
    SavedIsHeld(w, serial, notAfter, now, until);
    var w' := Next(w, RevocationSaved(serial, notAfter, now));
    NothingListed(w'.log, serial);
    RunHolds(w', events, serial, until, |w.log|);
  }

  lemma NothingListed(log: seq<Bundle>, serial: nat)
    ensures ListedFrom(log, |log|, serial)
  {
  }

  /** The chains of a leaf, each of which starts with it and ends in a root of the bundle. */
  predicate OwnChains(chains: Option<seq<seq<Cert>>>, leaf: Cert, b: Body) {
    chains.Some? ==> forall i | 0 <= i < |chains.value| ::
      |chains.value[i]| > 0 && chains.value[i][0] == leaf && chains.value[i][|chains.value[i]| - 1] in b.roots
  }

  /**
  Once a pass was made after the revocation, the node is refused under the view of
  every state of the run until a day after the end, pinned or not.
  */
  lemma RevokedNodeRefused(w: World, pass: int, events: seq<Event>, until: int, leaf: Cert,
                           chains: Option<seq<seq<Cert>>>, pinned: bool, named: bool)
    requires Inv(w) && w.clock <= pass <= until + REVOCATION_KEEP && Holding(w.store, leaf.serial, until)
    requires Refreshed(w.store, pass).Ok? && (forall e | e in events :: WithinKeep(e, until))
    requires (NextKeepsInv(w, PassRun(pass)); Ordered(Next(w, PassRun(pass)), events))
    requires var end := (NextKeepsInv(w, PassRun(pass)); Run(Next(w, PassRun(pass)), events));
             end.view.Some? && OwnChains(chains, leaf, end.view.value.bundle.body)
    ensures var end := (NextKeepsInv(w, PassRun(pass)); Run(Next(w, PassRun(pass)), events));
            !NodeAccepted(end.view.value.bundle.body, Some(leaf), chains, pinned, named)
  {
    hide RootsOk, IssuersOk, KeysOk, LogOk, LinkOk, Refreshed, KeyShape, RootShape, BundlesOrdered, KeysOrdered, ListedFrom,
         NodeAccepted, Holding, Next;
    NextKeepsInv(w, PassRun(pass));
    NothingListed(w.log, leaf.serial);
    PassHolds(w, pass, leaf.serial, until, |w.log|);
    RunHolds(Next(w, PassRun(pass)), events, leaf.serial, until, |w.log|);
    var end := Run(Next(w, PassRun(pass)), events);
    RevokedLeafRefused(end.view.value.bundle.body, leaf, chains, pinned, named);
  }

  // ---------- The length of the list ----------

  /** The listed intermediates whose serial is not revoked yet. */
  function NewlyRevoked(issuers: seq<Issuer>, revocations: seq<Revocation>): nat {
    if issuers == [] then 0
    else
      var last := issuers[|issuers| - 1];
      NewlyRevoked(issuers[..|issuers| - 1], revocations) +
      if last.state != IssuerRevoked && !HasSerial(revocations, last.cert.serial) then 1 else 0
  }

  predicate SerialsGrow(issuers: seq<Issuer>) {
    forall i, j | 0 <= i < j < |issuers| :: issuers[i].cert.serial < issuers[j].cert.serial
  }

  lemma {:induction false} PutCounts(revocations: seq<Revocation>, r: Revocation)
    ensures |PutRevocation(revocations, r)| == |revocations| + if HasSerial(revocations, r.serial) then 0 else 1
    ensures forall n :: HasSerial(PutRevocation(revocations, r), n) <==> HasSerial(revocations, n) || n == r.serial
  {
    if revocations == [] {
      assert r in [r];
    } else {
      var rest := revocations[1..];
      assert revocations == [revocations[0]] + rest;
      forall n
        ensures HasSerial(revocations, n) <==> revocations[0].serial == n || HasSerial(rest, n)
      {
        assert revocations[0] in revocations;
      }
      if revocations[0].serial == r.serial {
        assert r in [r] + rest;
        forall n
          ensures HasSerial([r] + rest, n) <==> r.serial == n || HasSerial(rest, n)
        {
        }
      } else {
        PutCounts(rest, r);
        var after := PutRevocation(rest, r);
        forall n
          ensures HasSerial([revocations[0]] + after, n) <==> revocations[0].serial == n || HasSerial(after, n)
        {
          assert revocations[0] in [revocations[0]] + after;
        }
      }
    }
  }

  /** A revoking rotation adds exactly the listed intermediates not revoked yet. */
  lemma {:induction false} RevokeListedCounts(issuers: seq<Issuer>, revocations: seq<Revocation>)
    requires SerialsGrow(issuers)
    ensures |RevokeListed(issuers, revocations)| == |revocations| + NewlyRevoked(issuers, revocations)
    ensures forall n :: HasSerial(RevokeListed(issuers, revocations), n) <==>
                          HasSerial(revocations, n) || Lists(issuers, n)
  {
    if issuers != [] {
      var last := |issuers| - 1;
      var before := issuers[..last];
      RevokeListedCounts(before, revocations);
      assert issuers == before + [issuers[last]];
      forall n
        ensures Lists(issuers, n) <==> Lists(before, n) || (issuers[last].state != IssuerRevoked && issuers[last].cert.serial == n)
      {
        if Lists(before, n) {
          var i :| 0 <= i < |before| && before[i].state != IssuerRevoked && before[i].cert.serial == n;
          assert issuers[i] == before[i];
        }
      }
      assert !Lists(before, issuers[last].cert.serial);
      if issuers[last].state != IssuerRevoked {
        PutCounts(RevokeListed(before, revocations), Revocation(issuers[last].cert.serial, issuers[last].cert.notAfter));
      }
    }
  }

  predicate Lists(issuers: seq<Issuer>, serial: nat) {
    exists i :: 0 <= i < |issuers| && issuers[i].state != IssuerRevoked && issuers[i].cert.serial == serial
  }

  /** A revoking rotation, which checks no limit, has this much room. */
  predicate HasRoom(w: World, e: Event) {
    e.IntermediateSaved? && e.revokePrevious ==>
      |w.store.revocations| + NewlyRevoked(w.store.issuers, w.store.revocations) <= MAX_REVOKED_SERIALS
  }

  /**
  One event keeps the list within its limit if and only if it is not a revoking
  rotation that goes through without that room.
  */
  lemma NextFits(w: World, e: Event)
    requires Inv(w) && InOrder(w, e) && |w.store.revocations| <= MAX_REVOKED_SERIALS
    ensures |Next(w, e).store.revocations| <= MAX_REVOKED_SERIALS <==>
              (HasRoom(w, e) || SaveIntermediate(w.store, e.brought, e.revokePrevious, e.now).Err?)
  {
    hide RootsOk, IssuersOk, KeysOk, LogOk, LinkOk, KeyShape, RootShape, BundlesOrdered, KeysOrdered, Listed, Finish, Refreshed,
         NewlyRevoked, RevokeListed;
    if e.PassRun? && Refreshed(w.store, e.now).Ok? {
      var unused := RefreshedParts(w.store, w.clock, e.now);
      RefreshedOk(w.store, w.clock, e.now);
      var (t, blocked) := Refreshed(w.store, e.now).value;
      FinishKeepsRest(t, blocked, e.now);
    } else if e.IntermediateSaved? && w.store.roots != [] {
      SerialsGrowing(w.store, w.clock);
      RevokeListedCounts(w.store.issuers, w.store.revocations);
    }
  }

  lemma SerialsGrowing(s: Store, clock: int)
    requires RootShape(s.roots) && s.roots != [] && IssuersOk(s, clock)
    ensures SerialsGrow(s.issuers)
  {
    forall i, j | 0 <= i < j < |s.issuers|
      ensures s.issuers[i].cert.serial < s.issuers[j].cert.serial
    {
      assert Follows(s.issuers[i], s.issuers[j], ActiveRoot(s.roots).cert);
    }
  }

  /** Each revoking rotation of a run starts with room for what it revokes, or is refused. */
  ghost predicate AlwaysRoom(w: World, events: seq<Event>)
    requires Inv(w) && Ordered(w, events)
    decreases |events|
  {
    events == [] ||
    (&& (HasRoom(w, events[0]) || SaveIntermediate(w.store, events[0].brought, events[0].revokePrevious, events[0].now).Err?)
     && (NextKeepsInv(w, events[0]); AlwaysRoom(Next(w, events[0]), events[1..])))
  }

  /** The list is within its limit in every state of the run. */
  ghost predicate AlwaysWithin(w: World, events: seq<Event>)
    requires Inv(w) && Ordered(w, events)
    decreases |events|
  {
    && |w.store.revocations| <= MAX_REVOKED_SERIALS
    && (events == [] || (NextKeepsInv(w, events[0]); AlwaysWithin(Next(w, events[0]), events[1..])))
  }

  /** Over a whole run the list stays within its limit if and only if every revoking rotation has room. */
  lemma {:induction false} ListStaysWithin(w: World, events: seq<Event>)
    requires Inv(w) && Ordered(w, events) && |w.store.revocations| <= MAX_REVOKED_SERIALS
    ensures AlwaysWithin(w, events) <==> AlwaysRoom(w, events)
    decreases |events|
  {
    hide Next, InOrder, RootsOk, IssuersOk, KeysOk, LogOk, LinkOk, HasRoom, SaveIntermediate;
    if events != [] {
      NextKeepsInv(w, events[0]);
      NextFits(w, events[0]);
      if |Next(w, events[0]).store.revocations| <= MAX_REVOKED_SERIALS {
        ListStaysWithin(Next(w, events[0]), events[1..]);
      }
    }
  }
}
