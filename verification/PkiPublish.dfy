/**
When a pass publishes and what falls due, how long a signing key is published, and
exactly when a pass or an operator step is refused.
*/
module PkiPublish {
  import opened Wrappers
  import opened Seqs
  import opened PkiTypes
  import opened PkiPass
  import opened PkiWorld
  import opened PkiInvariant
  import opened PkiRuns

  // ---------- When a bundle is published ----------

  /** A bundle that lists the stored roots, intermediates, keys and serials. */
  predicate Says(b: Body, s: Store)
    requires RootShape(s.roots) && s.roots != []
  {
    && b.roots == RootCerts(s.roots)
    && b.intermediates == Listed(s.issuers)
    && b.keys == Entries(s.keys)
    && b.revoked == SortedSerials(s.revocations)
  }

  /**
  A pass that is not refused publishes nothing if and only if the latest bundle already
  says what the pass leaves stored; otherwise it publishes one bundle that does.
  */
  lemma PublishesExactly(w: World, now: int)
    requires Inv(w) && w.clock <= now && Refreshed(w.store, now).Ok?
    ensures var t, w' := Refreshed(w.store, now).value.0, Next(w, PassRun(now));
            && (w'.log == w.log <==> w.log != [] && Says(Latest(w).body, t))
            && w'.log != [] && Says(Latest(w').body, t) && w'.store == t.(bundles := w'.store.bundles)
            && (w'.log != w.log ==>
                  && |w'.log| == |w.log| + 1 && w.log <= w'.log
                  && Latest(w').body.version == |w'.log| && Latest(w').body.issuedAt == now)
  {
    hide RootsOk, IssuersOk, KeysOk, KeyShape, RootShape, IssuerShape, BundlesOrdered, KeysOrdered, DistinctSerials, Refreshed, Listed,
         RootCerts, Entries, SortedSerials, LastBundles, ActiveKey, RotationPhase, RetiredIssuers;
    RefreshedOk(w.store, w.clock, now);
    var (t, blocked) := Refreshed(w.store, now).value;
    FinishKeepsLog(w, t, blocked, now);
    SameLast(w.log);
    ViewIsLast(w);
  }

  lemma ViewIsLast(w: World)
    requires Inv(w)
    ensures w.store.bundles == LastBundles(w.log)
    ensures w.log != [] ==> Latest(w).body.version == |w.log|
  {
    hide StoreOk, LastBundles;
  }

  /** A refused pass publishes and stores nothing. */
  lemma RefusedPublishesNothing(w: World, now: int)
    requires Inv(w) && w.clock <= now && Refreshed(w.store, now).Err?
    ensures Shape(w.store) && Next(w, PassRun(now)) == w.(clock := now)
  {
    hide RootsOk, IssuersOk, KeysOk, LogOk, LinkOk, Refreshed, Finish;
  }

  // ---------- What falls due ----------

  /** No key is old enough to be followed, to follow, or to go. */
  predicate KeysRest(keys: seq<SigningKey>, now: int)
    requires KeyShape(keys)
  {
    match |keys|
    case 0 => false
    case 1 => now < keys[0].created + 60 * DAY
    case _ =>
      if keys[1].state == KeyPending then now < keys[1].created + 7 * DAY
      else now < keys[0].notAfter && now < keys[1].created + 14 * DAY
  }

  /** No renewal, run-out intermediate, key age or run-out revocation is due. */
  predicate NothingDue(s: Store, now: int)
    requires Shape(s)
  {
    && s.roots != [] && s.issuers != []
    && (var newest := s.issuers[|s.issuers| - 1].cert;
        now < newest.notBefore + (newest.notAfter - newest.notBefore) * 2 / 3)
    && (forall i | 0 <= i < |s.issuers| - 1 :: now <= s.issuers[i].cert.notAfter)
    && KeysRest(s.keys, now)
    && (forall i | 0 <= i < |s.revocations| :: now <= s.revocations[i].notAfter + DAY)
  }

  lemma NothingRefreshed(s: Store, now: int)
    requires Shape(s) && NothingDue(s, now)
    ensures Refreshed(s, now) == Ok((s, false))
  {
    hide RootShape, KeysOrdered, BundlesOrdered, DistinctSerials, KeyShape, ManageKeys, LiveIssuers, LiveRevocations, KeysRest, ActiveRoot;
    assert Renew(ActiveRoot(s.roots), s.issuers, s.unused, now) == Renewed(s.issuers, s.unused, false);
    KeysUnchanged(s.keys, s.unused, now);
    NoneDropped(s, now);
  }

  lemma KeysUnchanged(keys: seq<SigningKey>, unused: nat, now: int)
    requires KeyShape(keys) && KeysRest(keys, now)
    ensures ManageKeys(keys, unused, now) == KeyChange(keys, unused)
  {
  }

  lemma NoneDropped(s: Store, now: int)
    requires Shape(s) && NothingDue(s, now)
    ensures LiveIssuers(s.issuers, now) == s.issuers && LiveRevocations(s.revocations, now) == s.revocations
  {
    hide RootShape, KeysOrdered, BundlesOrdered, DistinctSerials, KeyShape, KeysRest;
    FilterAll(s.issuers, (i: Issuer) => IssuerLive(i, now));
    FilterAll(s.revocations, (r: Revocation) => RevocationLive(r, now));
  }

  /** The latest bundle says what is stored. */
  predicate Published(w: World)
    requires RootShape(w.store.roots)
  {
    w.log != [] && w.store.roots != [] && Says(Latest(w).body, w.store)
  }

  lemma PassPublishes(w: World, now: int)
    requires Inv(w) && w.clock <= now && Refreshed(w.store, now).Ok?
    ensures Inv(Next(w, PassRun(now))) && Published(Next(w, PassRun(now)))
  {
    hide RootsOk, IssuersOk, KeysOk, LogOk, LinkOk, KeyShape, RootShape, IssuerShape, BundlesOrdered, KeysOrdered, DistinctSerials,
         Refreshed, Next, Listed, RootCerts, Entries, SortedSerials;
    NextKeepsInv(w, PassRun(now));
    PublishesExactly(w, now);
  }

  /** Passes, restarts and leaves: what goes on while no operator acts. */
  predicate Idle(e: Event) {
    e.PassRun? || e.Restart? || e.LeafIssued?
  }

  lemma IdleStep(w: World, e: Event)
    requires Inv(w) && InOrder(w, e) && Published(w) && Idle(e) && (e.PassRun? ==> NothingDue(w.store, e.now))
    ensures var w' := Next(w, e);
            Inv(w') && Published(w') && w'.log == w.log && w'.store == w.store.(unused := w'.store.unused)
  {
    hide RootsOk, IssuersOk, KeysOk, LogOk, LinkOk, KeyShape, IssuerShape, BundlesOrdered, KeysOrdered, DistinctSerials, Refreshed,
         Finish, Listed, RootCerts, Entries, SortedSerials, LastBundles, NothingDue;
    NextKeepsInv(w, e);
    if e.PassRun? {
      NothingRefreshed(w.store, e.now);
      PublishesExactly(w, e.now);
      ViewIsLast(w);
      ViewIsLast(Next(w, e));
    }
  }

  /** From a state a pass left, however many passes, restarts and leaves follow before anything is due, nothing is published or changed. */
  lemma {:induction false} IdleRun(w: World, events: seq<Event>)
    requires Inv(w) && Ordered(w, events) && Published(w)
    requires forall e | e in events :: Idle(e) && (e.PassRun? ==> NothingDue(w.store, e.now))
    ensures var end := Run(w, events);
            end.log == w.log && end.store == w.store.(unused := end.store.unused)
    decreases |events|
  {
    hide RootsOk, IssuersOk, KeysOk, LogOk, LinkOk, KeyShape, RootShape, IssuerShape, BundlesOrdered, KeysOrdered, DistinctSerials,
         Published, Next;
    if events != [] {
      var e := events[0];
      assert e in events;
      NextKeepsInv(w, e);
      IdleStep(w, e);
      var next := Next(w, e);
      forall x | x in events[1..] && x.PassRun?
        ensures NothingDue(next.store, x.now)
      {
        assert x in events;
        DueFrame(w.store, next.store, x.now);
      }
      IdleRun(next, events[1..]);
    }
  }

  lemma DueFrame(s: Store, t: Store, now: int)
    requires Shape(s) && Shape(t) && t == s.(unused := t.unused) && NothingDue(s, now)
    ensures NothingDue(t, now)
  {
  }

  // ---------- Signing keys over events ----------

  predicate HasKey(keys: seq<SigningKey>, id: nat) {
    exists i :: 0 <= i < |keys| && keys[i].id == id
  }

  /**
  What an event does to the stored keys. Only a pass touches them: it drops a replaced
  key at its end or 14 days after its successor was made, makes one when there is none
  or the only one is 60 days old, and lets a successor sign once it is 7 days old.
  */
  lemma KeysOverEvents(w: World, e: Event, id: nat)
    requires Inv(w) && InOrder(w, e)
    ensures Inv(Next(w, e))
    ensures var keys, after := w.store.keys, Next(w, e).store.keys;
            if e.PassRun? && Refreshed(w.store, e.now).Ok? then
              && (HasKey(keys, id) && !HasKey(after, id) <==>
                    && |keys| == 2 && keys[1].state == KeyActive && id == keys[0].id
                    && (e.now >= keys[0].notAfter || e.now >= keys[1].created + 14 * DAY))
              && ((exists n :: HasKey(after, n) && !HasKey(keys, n)) <==>
                    || keys == []
                    || (keys[|keys| - 1].state == KeyActive && e.now >= keys[|keys| - 1].created + 60 * DAY))
              && (keys != [] ==>
                    && after != []
                    && ActiveKey(after).id == (if |keys| == 2 && keys[1].state == KeyPending && e.now >= keys[1].created + 7 * DAY
                                               then keys[1].id else ActiveKey(keys).id))
            else
              after == keys
  {
    hide RootsOk, IssuersOk, LogOk, LinkOk, RootShape, IssuerShape, BundlesOrdered, DistinctSerials, Refreshed, Finish, Listed,
         RevokeListed, ManageKeys, KeysOk;
    NextKeepsInv(w, e);
    if e.PassRun? && Refreshed(w.store, e.now).Ok? {
      var unused := RefreshedParts(w.store, w.clock, e.now);
      var (t, blocked) := Refreshed(w.store, e.now).value;
      FinishKeepsRest(t, blocked, e.now);
      KeysInPass(w.store.keys, unused, e.now, id);
    }
  }

  lemma KeysInPass(keys: seq<SigningKey>, unused: nat, now: int, id: nat)
    requires KeyShape(keys) && KeysOrdered(keys) && forall i | 0 <= i < |keys| :: keys[i].id < unused
    ensures var after := ManageKeys(keys, unused, now).keys;
            && KeyShape(after)
            && (HasKey(keys, id) && !HasKey(after, id) <==>
                  && |keys| == 2 && keys[1].state == KeyActive && id == keys[0].id
                  && (now >= keys[0].notAfter || now >= keys[1].created + 14 * DAY))
            && ((exists n :: HasKey(after, n) && !HasKey(keys, n)) <==>
                  || keys == []
                  || (keys[|keys| - 1].state == KeyActive && now >= keys[|keys| - 1].created + 60 * DAY))
            && (keys != [] ==>
                  && after != []
                  && ActiveKey(after).id == (if |keys| == 2 && keys[1].state == KeyPending && now >= keys[1].created + 7 * DAY
                                             then keys[1].id else ActiveKey(keys).id))
  {
    var after := ManageKeys(keys, unused, now).keys;
    forall i | 0 <= i < |after|
      ensures HasKey(after, after[i].id)
    {
    }
    forall i | 0 <= i < |keys|
      ensures HasKey(keys, keys[i].id)
    {
    }
  }

  /** A key stays published until 74 days after it was made: the 60 before it is followed, and 14. */
  lemma {:induction false} KeyStaysPublished(w: World, events: seq<Event>, x: SigningKey)
    requires Inv(w) && Ordered(w, events) && Dated(w.store.keys, x)
    requires forall e | e in events && e.PassRun? :: e.now < x.created + 74 * DAY
    ensures Dated(Run(w, events).store.keys, x)
    decreases |events|
  {
    hide RootsOk, IssuersOk, LogOk, LinkOk, KeyShape, RootShape, IssuerShape, BundlesOrdered, KeysOrdered, DistinctSerials, Next, KeysOk,
         Dated;
    if events != [] {
      assert events[0] in events;
      NextKeepsInv(w, events[0]);
      EventKeepsKey(w, events[0], x);
      KeyStaysPublished(Next(w, events[0]), events[1..], x);
    }
  }

  /** This key is stored, in whatever state. */
  predicate Dated(keys: seq<SigningKey>, x: SigningKey) {
    exists i :: 0 <= i < |keys| && keys[i].(state := x.state) == x
  }

  lemma EventKeepsKey(w: World, e: Event, x: SigningKey)
    requires Inv(w) && InOrder(w, e) && Dated(w.store.keys, x) && (e.PassRun? ==> e.now < x.created + 74 * DAY)
    ensures Inv(Next(w, e)) && Dated(Next(w, e).store.keys, x)
  {
    hide RootsOk, IssuersOk, LogOk, LinkOk, RootShape, IssuerShape, BundlesOrdered, DistinctSerials, Refreshed, Finish, Listed,
         RevokeListed;
    NextKeepsInv(w, e);
    if e.PassRun? && Refreshed(w.store, e.now).Ok? {
      var unused := RefreshedParts(w.store, w.clock, e.now);
      var (t, blocked) := Refreshed(w.store, e.now).value;
      FinishKeepsRest(t, blocked, e.now);
      PassKeepsKey(w.store, w.clock, unused, e.now, x);
    }
  }

  lemma PassKeepsKey(s: Store, clock: int, unused: nat, now: int, x: SigningKey)
    requires KeyShape(s.keys) && KeysOk(s, clock) && Dated(s.keys, x) && now < x.created + 74 * DAY
    ensures Dated(ManageKeys(s.keys, unused, now).keys, x)
  {
    var keys, after := s.keys, ManageKeys(s.keys, unused, now).keys;
    var i :| 0 <= i < |keys| && keys[i].(state := x.state) == x;
    var over := |keys| == 2 && keys[1].state == KeyActive && (now >= keys[0].notAfter || now >= keys[1].created + 14 * DAY);
    var j := if over then 0 else i;
    assert over ==> i == 1;
    assert after[j].(state := x.state) == x;
  }

  // ---------- Refusals ----------

  /** The newest intermediate is missing or has lived two thirds of its life. */
  predicate IssuerDue(s: Store, now: int) {
    s.issuers == [] || (var newest := s.issuers[|s.issuers| - 1].cert;
                        now >= newest.notBefore + (newest.notAfter - newest.notBefore) * 2 / 3)
  }

  /**
  A pass is refused exactly if the intermediate is due and either the root's key is
  away and the intermediate has ended, or the root ends before a new one would. With
  the key away and the intermediate not ended it goes on, says so, and makes none.
  */
  lemma PassRefusedExactly(s: Store, now: int)
    requires Shape(s)
    ensures var r := Pass(s, now);
            var due := s.roots != [] && IssuerDue(s, now);
            && (r == PassRefused(RootUnavailable) <==>
                  due && !ActiveRoot(s.roots).keyStored && (s.issuers == [] || now >= s.issuers[|s.issuers| - 1].cert.notAfter))
            && (r == PassRefused(RootTooShort) <==>
                  due && ActiveRoot(s.roots).keyStored && now + 730 * DAY > ActiveRoot(s.roots).cert.notAfter)
            && (r.PassRefused? ==> r.error in {RootUnavailable, RootTooShort})
            && (r.Passed? ==>
                  && (r.blocked <==> due && !ActiveRoot(s.roots).keyStored)
                  && (r.blocked ==> forall x | x in r.store.issuers :: x in s.issuers))
  {
    hide KeyShape, KeysOrdered, BundlesOrdered, DistinctSerials, ManageKeys, LiveRevocations, Listed, SortedSerials, Entries,
         RetiredIssuers, ActiveKey, LastBundles;
  }

  /** A new intermediate is refused for exactly these reasons, in this order. */
  lemma IntermediateRefusedExactly(s: Store, brought: Option<nat>, revokePrevious: bool, now: int)
    requires Shape(s)
    ensures var r := SaveIntermediate(s, brought, revokePrevious, now);
            var room := revokePrevious || |Listed(s.issuers)| < 2;
            && (r == Err(NoRootYet) <==> s.roots == [])
            && (r == Err(TooManyIssuers) <==> s.roots != [] && !room)
            && (r == Err(WrongRootKey) <==> s.roots != [] && room && brought.Some? && brought.value != ActiveRoot(s.roots).cert.key)
            && (r == Err(RootUnavailable) <==> s.roots != [] && room && brought.None? && !ActiveRoot(s.roots).keyStored)
            && (r == Err(RootTooShort) <==>
                  && s.roots != [] && room && now + 730 * DAY > ActiveRoot(s.roots).cert.notAfter
                  && (if brought.Some? then brought.value == ActiveRoot(s.roots).cert.key else ActiveRoot(s.roots).keyStored))
            && (r.Err? ==> r.error in {NoRootYet, TooManyIssuers, WrongRootKey, RootUnavailable, RootTooShort})
  {
    hide KeyShape, KeysOrdered, BundlesOrdered, DistinctSerials, Listed, RevokeListed;
  }

  /** A next root is refused exactly before there is one and while a rotation is under way. */
  lemma NextRootRefusedExactly(s: Store, now: int)
    requires Shape(s)
    ensures var r := SaveNextRoot(s, now);
            && (r == Err(NoRootYet) <==> s.roots == [])
            && (r == Err(RotationBusy) <==> |s.roots| == 2)
            && (r.Ok? <==> |s.roots| == 1)
            && (r.Ok? ==>
                  && |r.value.roots| == 2 && r.value.roots[0] == s.roots[0] && r.value.roots[1].state == RootNext
                  && r.value.roots[1].keyStored && r.value.roots[1].cert.serial == s.unused && r.value.roots[1].cert.signedBy == s.unused
                  && r.value == s.(roots := r.value.roots, unused := s.unused + 1))
  {
    hide KeyShape, KeysOrdered, BundlesOrdered, DistinctSerials, IssuerShape;
  }

  /** A promotion is refused for exactly these reasons, in this order. */
  lemma PromotionRefusedExactly(s: Store, now: int)
    requires Shape(s)
    ensures var r := SavePromotion(s, now);
            var prepared := |s.roots| == 2 && s.roots[1].state == RootNext;
            var room := |Listed(s.issuers)| < 2;
            && (r == Err(NoRootYet) <==> s.roots == [])
            && (r == Err(NoRotation) <==> s.roots != [] && !prepared)
            && (r == Err(TooManyIssuers) <==> prepared && !room)
            && (r == Err(RootUnavailable) <==> prepared && room && !s.roots[1].keyStored)
            && (r == Err(RootTooShort) <==> prepared && room && s.roots[1].keyStored && now + 730 * DAY > s.roots[1].cert.notAfter)
            && (r.Err? ==> r.error in {NoRootYet, NoRotation, TooManyIssuers, RootUnavailable, RootTooShort})
  {
    hide KeyShape, KeysOrdered, BundlesOrdered, DistinctSerials, Listed;
  }

  /** A retirement is refused exactly if no rotation is promoted. */
  lemma RetirementRefusedExactly(s: Store)
    requires Shape(s)
    ensures var r := SaveRetirement(s);
            && (r.Ok? <==> |s.roots| == 2 && s.roots[0].state == RootRetired)
            && (r.Err? ==> r.error == if s.roots == [] then NoRootYet else NoRotation)
            && (r.Ok? ==>
                  && r.value.roots == [s.roots[1]]
                  && (forall x :: x in r.value.issuers <==> x in s.issuers && !SignedBy(x.cert, s.roots[0].cert)))
  {
    hide KeyShape, KeysOrdered, BundlesOrdered, DistinctSerials, IssuerShape;
  }

  /** A revocation is refused for exactly these reasons, in this order; one already stored changes nothing. */
  lemma RevocationRefusedExactly(s: Store, serial: nat, notAfter: Option<int>, now: int)
    requires Shape(s)
    ensures var r := SaveRevocation(s, serial, notAfter, now);
            var root := exists q :: q in s.roots && q.cert.serial == serial;
            var inUse := s.issuers != [] && s.issuers[|s.issuers| - 1].cert.serial == serial;
            var listed := exists x :: x in s.revocations && x.serial == serial;
            && (r == Err(NoRootYet) <==> s.roots == [])
            && (r == Err(CannotRevokeRoot) <==> root)
            && (r == Err(UseRotation) <==> !root && inUse)
            && (r == Err(TooManyRevoked) <==> s.roots != [] && !root && !inUse && !listed && |s.revocations| >= 1024)
            && (r.Err? ==> r.error in {NoRootYet, CannotRevokeRoot, UseRotation, TooManyRevoked})
            && (r.Ok? ==> r.value == if listed then s
                                     else
                                       var end := if notAfter.Some? then notAfter.value else now + 180 * DAY;
                                       s.(revocations := s.revocations + [Revocation(serial, end)]))
  {
    hide KeyShape, KeysOrdered, BundlesOrdered, RootShape;
  }

  /** The key of the active root, and nothing else, goes or comes back. */
  lemma RootKeyExactly(s: Store, stored: bool)
    requires Shape(s)
    ensures var r := SaveRootKey(s, stored);
            && (r.Err? <==> s.roots == [])
            && (r.Ok? ==>
                  && r.value == s.(roots := r.value.roots) && |r.value.roots| == |s.roots|
                  && forall i | 0 <= i < |s.roots| ::
                       r.value.roots[i] == if s.roots[i].state == RootActive then s.roots[i].(keyStored := stored) else s.roots[i])
  {
    hide KeyShape, KeysOrdered, BundlesOrdered, DistinctSerials, IssuerShape;
  }
}
