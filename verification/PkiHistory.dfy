/**
Whole runs of the authority. Every bundle of the log was signed by a key that
earlier bundles listed, and a node that holds one bundle can take the next.
*/
module PkiHistory {
  import opened Wrappers
  import opened PkiTypes
  import opened PkiBundle
  import opened PkiPass
  import opened PkiWorld
  import opened PkiInvariant

  // ---------- Bundles and keys of the log ----------

  /** What a published body is whatever its age: only expiry and two sizes are left open. */
  ghost predicate BodySound(b: Body) {
    && b.version >= 1
    && 1 <= |b.roots| <= MAX_BUNDLE_ROOTS
    && 1 <= |b.intermediates|
    && 1 <= |b.keys| <= 2
    && DistinctIds(b.keys)
    && (forall i | 0 <= i < |b.roots| :: b.roots[i].isCA)
    && (forall i | 0 <= i < |b.intermediates| ::
          b.intermediates[i].isCA && Rooted(b.intermediates[i], b.roots) && b.issuedAt <= b.intermediates[i].notAfter)
    && b.issuedAt <= b.roots[0].notAfter
  }

  /** The entry of the key that signed a bundle. */
  ghost predicate SignedWith(b: Bundle, e: BundleKey) {
    e in b.body.keys && b.keyId == e.id && b.signature == Signature(e.key, b.body)
  }

  /**
  A node that still held bundle `i` within the promotion delay before bundle `j`
  was issued; the bundle just before always counts.
  */
  predicate Recent(log: seq<Bundle>, i: nat, j: nat)
    requires i < j < |log|
  {
    i + 1 == j || log[i + 1].body.issuedAt > log[j].body.issuedAt - SIGNING_PROMOTE_AFTER
  }

  ghost predicate Chained(log: seq<Bundle>, j: nat)
    requires j < |log|
  {
    && BodySound(log[j].body)
    && (j > 0 ==> SharesRoot(log[j].body, log[j - 1].body))
    && exists e :: SignedWith(log[j], e) && forall i: nat | i < j && Recent(log, i, j) :: e in log[i].body.keys
  }

  /** Bundle `i` was current after this key was made, or the key is the first. */
  predicate Covers(log: seq<Bundle>, x: SigningKey, i: nat)
    requires i < |log|
  {
    i + 1 == |log| || log[i + 1].body.issuedAt > x.created || x.id == log[0].keyId
  }

  ghost predicate ListedSince(log: seq<Bundle>, x: SigningKey) {
    forall i: nat | i < |log| && Covers(log, x, i) :: Entry(x) in log[i].body.keys
  }

  /** The key that signs was in use from the start or has been published long enough. */
  predicate Aged(log: seq<Bundle>, x: SigningKey, now: int)
    requires log != []
  {
    x.id == log[0].keyId || x.created + SIGNING_PROMOTE_AFTER <= now
  }

  ghost predicate HistoryOk(w: World)
    requires KeyShape(w.store.keys)
  {
    && (forall j: nat | j < |w.log| :: Chained(w.log, j))
    && (forall k | 0 <= k < |w.store.keys| :: ListedSince(w.log, w.store.keys[k]))
    && (w.log != [] ==> w.log[0].keyId < w.store.unused)
    && (w.log != [] && w.store.keys != [] ==> Aged(w.log, ActiveKey(w.store.keys), w.clock))
  }

  lemma IssuerRooted(issuer: Issuer, s: Store, now: int)
    requires RootShape(s.roots) && s.roots != [] && RootsOk(s, now)
    requires IssuerOk(issuer, s, now)
    ensures Rooted(issuer.cert, RootCerts(s.roots))
  {
    var k :| 0 <= k < |s.roots| && s.roots[k].state != RootNext && SignedBy(issuer.cert, s.roots[k].cert);
    assert s.roots[k].cert.serial == s.roots[k].cert.key;
    var certs := RootCerts(s.roots);
    var at := if k == ActiveRootIndex(s.roots) then 0 else 1;
    assert certs[at] == s.roots[k].cert;
  }

  lemma ActiveRootOutlives(s: Store, now: int)
    requires RootShape(s.roots) && s.roots != [] && s.issuers != [] && RootsOk(s, now) && IssuersOk(s, now)
    ensures s.issuers[|s.issuers| - 1].cert.notAfter <= ActiveRoot(s.roots).cert.notAfter
  {
    var issuer := s.issuers[|s.issuers| - 1];
    assert IssuerOk(issuer, s, now);
    var k :| 0 <= k < |s.roots| && SignedBy(issuer.cert, s.roots[k].cert) && Within(issuer.cert, s.roots[k].cert);
    var at := ActiveRootIndex(s.roots);
    assert SignedBy(issuer.cert, ActiveRoot(s.roots).cert);
    assert SignedBy(issuer.cert, s.roots[k].cert);
    assert issuer.cert.signedBy == s.roots[k].cert.key;
    assert issuer.cert.signedBy == s.roots[at].cert.key;
    assert s.roots[k].cert.serial == s.roots[at].cert.serial;
    assert k == at;
  }

  lemma EntriesDistinct(keys: seq<SigningKey>)
    requires KeysOrdered(keys)
    ensures DistinctIds(Entries(keys))
  {
  }

  lemma DesiredSound(t: Store, now: int)
    requires StoreOk(t, now) && t.roots != [] && t.issuers != [] && t.keys != []
    requires forall x | x in t.issuers :: now <= x.cert.notAfter
    requires t.bundles != [] ==> t.bundles[|t.bundles| - 1].body.version >= 1
    ensures BodySound(Desired(t, now))
  {
    hide IssuersOk, KeysOk, Rooted;
    var b := Desired(t, now);
    EntriesDistinct(t.keys);
    ActiveRootOutlives(t, now);
    assert t.issuers[|t.issuers| - 1].cert in b.intermediates by {
      assert t.issuers[|t.issuers| - 1].state != IssuerRevoked;
    }
    forall i | 0 <= i < |b.intermediates|
      ensures b.intermediates[i].isCA && Rooted(b.intermediates[i], b.roots) && b.issuedAt <= b.intermediates[i].notAfter
    {
      assert b.intermediates[i] in b.intermediates;
      var x :| x in t.issuers && x.cert == b.intermediates[i];
      StoredIssuerOk(t, x, now);
      IssuerRooted(x, t, now);
    }
    forall i | 0 <= i < |b.roots|
      ensures b.roots[i].isCA
    {
      assert b.roots[i] == t.roots[if i == 0 then ActiveRootIndex(t.roots) else 1 - ActiveRootIndex(t.roots)].cert;
    }
  }

  lemma StoredIssuerOk(s: Store, x: Issuer, now: int)
    requires RootShape(s.roots) && IssuersOk(s, now) && x in s.issuers
    ensures IssuerOk(x, s, now)
  {
  }

  // ---------- Keys across one pass ----------

  /** The key that signs after a pass was stored before it, and is old enough. */
  lemma SignerKept(keys: seq<SigningKey>, unused: nat, log: seq<Bundle>, clock: int, now: int) returns (k: nat)
    requires KeyShape(keys) && keys != [] && log != [] && clock <= now
    requires Aged(log, ActiveKey(keys), clock)
    ensures KeyShape(ManageKeys(keys, unused, now).keys) && ManageKeys(keys, unused, now).keys != []
    ensures var x := ActiveKey(ManageKeys(keys, unused, now).keys);
            k < |keys| && Entry(keys[k]) == Entry(x) && keys[k].created == x.created && Aged(log, x, now)
  {
    if keys[|keys| - 1].state == KeyPending && now < keys[1].created + SIGNING_PROMOTE_AFTER {
      k := 0;
    } else {
      k := |keys| - 1;
    }
  }

  /** A key of the result was stored before, or is made in this very pass. */
  lemma KeyOrigin(keys: seq<SigningKey>, unused: nat, now: int, x: SigningKey)
    requires KeyShape(keys)
    requires x in ManageKeys(keys, unused, now).keys
    ensures (x.created == now && x.id == unused)
         || exists k :: 0 <= k < |keys| && Entry(keys[k]) == Entry(x) && keys[k].created == x.created
  {
    var change := ManageKeys(keys, unused, now);
    if keys != [] && !(x.created == now && x.id == unused) {
      if x.id == keys[0].id && Entry(x) == Entry(keys[0]) {
      } else {
        assert Entry(x) == Entry(keys[|keys| - 1]);
      }
    }
  }

  /** Appending a bundle keeps what earlier ones were. */
  lemma ChainedAppend(log: seq<Bundle>, b: Bundle, j: nat)
    requires j < |log| && Chained(log, j)
    ensures Chained(log + [b], j)
  {
    hide BodySound, SharesRoot, SignedWith;
    var e :| SignedWith(log[j], e) && forall i: nat | i < j && Recent(log, i, j) :: e in log[i].body.keys;
    var log' := log + [b];
    forall i: nat | i < j && Recent(log', i, j)
      ensures e in log'[i].body.keys
    {
      assert Recent(log, i, j);
    }
    assert SignedWith(log'[j], e);
  }

  lemma ListedSinceAppend(log: seq<Bundle>, b: Bundle, x: SigningKey, clock: int, now: int)
    requires LogOk(log, clock) && clock <= now && b.body.issuedAt == now
    requires log != [] ==> b.keyId >= 0 && (ListedSince(log, x) || (x.created == now && x.id != log[0].keyId))
    requires log == [] ==> x.created == now
    requires Entry(x) in b.body.keys
    ensures ListedSince(log + [b], x)
  {
    var log' := log + [b];
    forall i: nat | i < |log'| && Covers(log', x, i)
      ensures Entry(x) in log'[i].body.keys
    {
      if i + 1 < |log'| {
        assert log'[i] == log[i] && log'[0] == log[0];
        assert i + 1 < |log| ==> log'[i + 1] == log[i + 1];
        if !ListedSince(log, x) {
          assert false;
        }
        assert Covers(log, x, i);
      }
    }
  }

  /** The bundle a pass appends is chained to all that came before. */
  lemma AppendedChained(log: seq<Bundle>, b: Bundle, x: SigningKey, clock: int, now: int)
    requires LogOk(log, clock) && clock <= now && b.body.issuedAt == now
    requires BodySound(b.body)
    requires log != [] ==> SharesRoot(b.body, log[|log| - 1].body)
    requires SignedWith(b, Entry(x))
    requires log != [] ==> ListedSince(log, x) && Aged(log, x, now)
    ensures Chained(log + [b], |log|)
  {
    hide BodySound, SharesRoot;
    var log' := log + [b];
    var j := |log|;
    forall i: nat | i < j && Recent(log', i, j)
      ensures Entry(x) in log'[i].body.keys
    {
      assert log'[i] == log[i];
      if i + 1 < j {
        assert log'[i + 1] == log[i + 1];
      }
      assert Covers(log, x, i);
    }
    assert SignedWith(log'[j], Entry(x));
  }

  // ---------- Every event ----------

  lemma SignerSigns(keys: seq<SigningKey>, body: Body)
    requires KeyShape(keys) && keys != [] && body.keys == Entries(keys)
    ensures SignedWith(Sign(body, ActiveKey(keys)), Entry(ActiveKey(keys)))
  {
    var at := if keys[|keys| - 1].state == KeyActive then |keys| - 1 else 0;
    assert Entries(keys)[at] == Entry(ActiveKey(keys));
  }

  lemma EntryIn(keys: seq<SigningKey>, k: nat)
    requires k < |keys|
    ensures Entry(keys[k]) in Entries(keys)
  {
    assert Entries(keys)[k] == Entry(keys[k]);
  }

  /** Facts about a key depend only on its entry and its age. */
  lemma ListedSinceSame(log: seq<Bundle>, x: SigningKey, y: SigningKey)
    requires ListedSince(log, x) && Entry(x) == Entry(y) && x.created == y.created
    ensures ListedSince(log, y)
  {
    forall i: nat | i < |log| && Covers(log, y, i)
      ensures Entry(y) in log[i].body.keys
    {
      assert Covers(log, x, i);
    }
  }

  /** The keys after a pass, against the log before it. */
  lemma PassedKeys(w: World, unused: nat, now: int, k: nat)
    requires Inv(w) && HistoryOk(w) && w.clock <= now && w.store.unused <= unused
    requires k < |ManageKeys(w.store.keys, unused, now).keys|
    ensures var x := ManageKeys(w.store.keys, unused, now).keys[k];
            if w.log == [] then x.created == now
            else ListedSince(w.log, x) || (x.created == now && x.id != w.log[0].keyId)
  {
    hide RootsOk, IssuersOk, KeysOk, LogOk, ListedSince, Chained, BundlesOrdered;
    var keys := w.store.keys;
    var x := ManageKeys(keys, unused, now).keys[k];
    if w.log != [] {
      KeyOrigin(keys, unused, now, x);
      if !(x.created == now && x.id == unused) {
        var o :| 0 <= o < |keys| && Entry(keys[o]) == Entry(x) && keys[o].created == x.created;
        ListedSinceSame(w.log, keys[o], x);
      }
    }
  }

  /** One pass keeps the history, whether or not it publishes. */
  lemma PassKeepsHistory(w: World, now: int)
    requires Inv(w) && HistoryOk(w) && w.clock <= now
    ensures Inv(AfterPass(w, now)) && HistoryOk(AfterPass(w, now))
  {
    hide RootsOk, IssuersOk, KeysOk, LogOk, ListedSince, Chained, LinkOk, ManageKeys, Desired, Finish, Refreshed,
         SameTrust, MakeView;
    PassKeepsInv(w, now);
    if Refreshed(w.store, now).Ok? {
      var unused := RefreshedParts(w.store, w.clock, now);
      var (t, blocked) := Refreshed(w.store, now).value;
      RefreshedOk(w.store, w.clock, now);
      FinishedHistory(w, t, blocked, unused, now);
    }
  }

  /** A pass that publishes nothing made no key. */
  lemma UnpublishedKeys(w: World, unused: nat, now: int)
    requires Inv(w) && HistoryOk(w) && w.clock <= now && w.store.unused <= unused && w.log != []
    requires Entries(ManageKeys(w.store.keys, unused, now).keys) == Latest(w).body.keys
    ensures forall x | x in ManageKeys(w.store.keys, unused, now).keys :: ListedSince(w.log, x)
  {
    hide RootsOk, IssuersOk, KeysOk, LogOk, ListedSince, Chained, BundlesOrdered, IssuerShape, RootShape, ManageKeys;
    var keys := ManageKeys(w.store.keys, unused, now).keys;
    forall x | x in keys
      ensures ListedSince(w.log, x)
    {
      var k :| 0 <= k < |keys| && keys[k] == x;
      EntryIn(keys, k);
      var o :| 0 <= o < |w.store.keys| && Entries(w.store.keys)[o] == Entry(x);
      assert x.id == w.store.keys[o].id < unused;
      KeyOrigin(w.store.keys, unused, now, x);
      var p :| 0 <= p < |w.store.keys| && Entry(w.store.keys[p]) == Entry(x) && w.store.keys[p].created == x.created;
      ListedSinceSame(w.log, w.store.keys[p], x);
    }
  }

  /** The signer of a bundle, against the log it is appended to. */
  lemma SignerListed(w: World, unused: nat, now: int)
    requires Inv(w) && HistoryOk(w) && w.clock <= now && w.log != []
    ensures KeyShape(ManageKeys(w.store.keys, unused, now).keys) && ManageKeys(w.store.keys, unused, now).keys != []
    ensures var x := ActiveKey(ManageKeys(w.store.keys, unused, now).keys);
            ListedSince(w.log, x) && Aged(w.log, x, now)
  {
    hide RootsOk, IssuersOk, KeysOk, LogOk, ListedSince, Chained, BundlesOrdered, IssuerShape, RootShape, ManageKeys;
    var k := SignerKept(w.store.keys, unused, w.log, w.clock, now);
    ListedSinceSame(w.log, w.store.keys[k], ActiveKey(ManageKeys(w.store.keys, unused, now).keys));
  }

  lemma FinishedHistory(w: World, t: Store, blocked: bool, unused: nat, now: int)
    requires Inv(w) && HistoryOk(w) && w.clock <= now
    requires StoreOk(t, now) && t.roots != [] && t.issuers != [] && t.keys != []
    requires w.store.unused <= unused <= t.unused
    requires t.keys == ManageKeys(w.store.keys, unused, now).keys
    requires w.store.roots != [] ==> t.roots == w.store.roots
    requires forall x | x in t.issuers :: now <= x.cert.notAfter
    requires t.bundles == w.store.bundles
    ensures HistoryOk(After(w, Finish(t, blocked, now), now))
  {
    hide RootsOk, IssuersOk, KeysOk, ListedSince, Chained, BundlesOrdered, IssuerShape, ManageKeys, RootCerts, Listed,
         SortedSerials, LastBundles;
    SameLast(w.log);
    if w.log != [] {
      SignerListed(w, unused, now);
    }
    var pass := Finish(t, blocked, now);
    if pass.published.Some? {
      PublishedHistory(w, t, pass.published.value, unused, now);
    } else {
      UnpublishedKeys(w, unused, now);
    }
  }

  lemma PublishedHistory(w: World, t: Store, b: Bundle, unused: nat, now: int)
    requires Inv(w) && HistoryOk(w) && w.clock <= now
    requires StoreOk(t, now) && t.roots != [] && t.issuers != [] && t.keys != []
    requires w.store.unused <= unused <= t.unused
    requires t.keys == ManageKeys(w.store.keys, unused, now).keys
    requires w.store.roots != [] ==> t.roots == w.store.roots
    requires forall x | x in t.issuers :: now <= x.cert.notAfter
    requires t.bundles == w.store.bundles
    requires b == Sign(Desired(t, now), ActiveKey(t.keys))
    ensures var log' := w.log + [b];
            && (forall j: nat | j < |log'| :: Chained(log', j))
            && (forall k | 0 <= k < |t.keys| :: ListedSince(log', t.keys[k]))
            && Aged(log', ActiveKey(t.keys), now)
            && log'[0].keyId < t.unused
  {
    hide RootsOk, IssuersOk, KeysOk, ListedSince, Chained, BundlesOrdered, IssuerShape, ManageKeys, Listed,
         SortedSerials, LastBundles, SharesRoot;
    SameLast(w.log);
    var log' := w.log + [b];
    DesiredSound(t, now);
    SignerSigns(t.keys, b.body);
    if w.log != [] {
      SignerListed(w, unused, now);
      PublishedShares(w, t, now);
    }
    AppendedChained(w.log, b, ActiveKey(t.keys), w.clock, now);
    forall j: nat | j < |log'|
      ensures Chained(log', j)
    {
      if j < |w.log| {
        ChainedAppend(w.log, b, j);
      }
    }
    forall k | 0 <= k < |t.keys|
      ensures ListedSince(log', t.keys[k])
    {
      PassedKeys(w, unused, now, k);
      EntryIn(t.keys, k);
      ListedSinceAppend(w.log, b, t.keys[k], w.clock, now);
    }
  }

  lemma PublishedShares(w: World, t: Store, now: int)
    requires Inv(w) && w.log != [] && RootShape(t.roots) && t.roots != [] && t.roots == w.store.roots
    ensures SharesRoot(Desired(t, now), Latest(w).body)
  {
    hide StoreOk, LogOk, Listed, SortedSerials, Entries, LastBundles;
    assert Desired(t, now).roots[0] == ActiveRoot(t.roots).cert;
  }
}
