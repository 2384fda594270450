/**
The rules a node applies to a trust bundle, and the Control Tower's own decision
to talk to a node. Each loop is proved to decide a condition stated without it.
*/
module PkiBundle {
  import opened Wrappers
  import opened PkiTypes

  datatype BundleError =
    | BadVersion
    | BadSizes
    | BadKey
    | UnusableRoot
    | UnrootedIntermediate
    | NotNewer
    | DropsEveryRoot
    | PinMissing
    | UntrustedSigner
    | BadSignature

  // ---------- A bundle on its own ----------

  predicate SizesFit(b: Body) {
    && 1 <= |b.roots| <= MAX_BUNDLE_ROOTS
    && 1 <= |b.intermediates| <= MAX_BUNDLE_ISSUERS
    && 1 <= |b.keys| <= MAX_BUNDLE_KEYS
    && |b.revoked| <= MAX_REVOKED_SERIALS
  }

  predicate DistinctIds(keys: seq<BundleKey>) {
    forall i, j | 0 <= i < j < |keys| :: keys[i].id != keys[j].id
  }

  predicate UsableRoot(root: Cert, now: int) {
    root.isCA && now <= root.notAfter
  }

  /** Some other certificate of the list signed this one, which did not sign itself. */
  predicate Rooted(issuer: Cert, roots: seq<Cert>) {
    && !SignedBy(issuer, issuer)
    && exists i :: 0 <= i < |roots| && roots[i] != issuer && SignedBy(issuer, roots[i])
  }

  predicate WellFormed(b: Body, now: int) {
    && b.version >= 1
    && SizesFit(b)
    && DistinctIds(b.keys)
    && (forall i | 0 <= i < |b.roots| :: UsableRoot(b.roots[i], now))
    && (forall i | 0 <= i < |b.intermediates| ::
          && b.intermediates[i].isCA
          && now <= b.intermediates[i].notAfter
          && Rooted(b.intermediates[i], b.roots))
  }

  method HasRootAbove(issuer: Cert, roots: seq<Cert>) returns (rooted: bool)
    ensures rooted <==> Rooted(issuer, roots)
  {
    rooted := false;
    for i := 0 to |roots|
      invariant rooted <==> exists k :: 0 <= k < i && roots[k] != issuer && SignedBy(issuer, roots[k])
    {
      if roots[i] != issuer && SignedBy(issuer, roots[i]) {
        rooted := true;
      }
    }
    if SignedBy(issuer, issuer) {
      rooted := false;
    }
  }

  method Validate(b: Body, now: int) returns (r: Result<(), BundleError>)
    ensures r.Ok? <==> WellFormed(b, now)
    ensures r.Err? ==>
              r.error == if b.version < 1 then BadVersion
                         else if !SizesFit(b) then BadSizes
                         else if !DistinctIds(b.keys) then BadKey
                         else if exists i :: 0 <= i < |b.roots| && !UsableRoot(b.roots[i], now) then UnusableRoot
                         else UnrootedIntermediate
  {
    if b.version < 1 {
      return Err(BadVersion);
    }
    if !SizesFit(b) {
      return Err(BadSizes);
    }
    var seen: set<nat> := {};
    for i := 0 to |b.keys|
      invariant DistinctIds(b.keys[..i])
      invariant forall id :: id in seen <==> exists k :: 0 <= k < i && b.keys[k].id == id
    {
      if b.keys[i].id in seen {
        return Err(BadKey);
      }
      seen := seen + {b.keys[i].id};
    }
    assert b.keys[..|b.keys|] == b.keys;
    for i := 0 to |b.roots|
      invariant forall k | 0 <= k < i :: UsableRoot(b.roots[k], now)
    {
      if !b.roots[i].isCA || now > b.roots[i].notAfter {
        return Err(UnusableRoot);
      }
    }
    for i := 0 to |b.intermediates|
      invariant forall k | 0 <= k < i ::
                  && b.intermediates[k].isCA
                  && now <= b.intermediates[k].notAfter
                  && Rooted(b.intermediates[k], b.roots)
    {
      var rooted := HasRootAbove(b.intermediates[i], b.roots);
      if !b.intermediates[i].isCA || now > b.intermediates[i].notAfter || !rooted {
        return Err(UnrootedIntermediate);
      }
    }
    return Ok(());
  }

  // ---------- Keys and revocations ----------

  /** The unexpired keys by identifier; a later entry replaces an earlier one. */
  function PublicKeys(keys: seq<BundleKey>, now: int): (m: map<nat, nat>)
    ensures forall id :: id in m <==> exists k :: 0 <= k < |keys| && keys[k].id == id && now < keys[k].notAfter
  {
    if keys == [] then map[]
    else
      var last := |keys| - 1;
      var earlier := PublicKeys(keys[..last], now);
      assert forall k :: 0 <= k < last ==> keys[..last][k] == keys[k];
      if now < keys[last].notAfter then earlier[keys[last].id := keys[last].key] else earlier
  }

  /** With distinct identifiers the map holds exactly the unexpired entries. */
  lemma {:induction false} PublicKeysHold(keys: seq<BundleKey>, now: int, k: nat)
    requires DistinctIds(keys)
    requires k < |keys| && now < keys[k].notAfter
    ensures keys[k].id in PublicKeys(keys, now)
    ensures PublicKeys(keys, now)[keys[k].id] == keys[k].key
  {
    var last := |keys| - 1;
    var before := keys[..last];
    if k < last {
      assert before[k] == keys[k] && keys[k].id != keys[last].id;
      PublicKeysHold(before, now, k);
    } else {
      assert PublicKeys(keys, now) == PublicKeys(before, now)[keys[last].id := keys[last].key];
    }
  }

  method CollectPublicKeys(b: Body, now: int) returns (m: map<nat, nat>)
    ensures m == PublicKeys(b.keys, now)
  {
    m := map[];
    for i := 0 to |b.keys|
      invariant m == PublicKeys(b.keys[..i], now)
    {
      assert b.keys[..i + 1][..i] == b.keys[..i];
      if now < b.keys[i].notAfter {
        m := m[b.keys[i].id := b.keys[i].key];
      }
    }
    assert b.keys[..|b.keys|] == b.keys;
  }

  method Revoked(b: Body, serial: nat) returns (revoked: bool)
    ensures revoked <==> serial in b.revoked
  {
    for i := 0 to |b.revoked|
      invariant serial !in b.revoked[..i]
    {
      if b.revoked[i] == serial {
        return true;
      }
    }
    return false;
  }

  /** Some certificate of the chain is revoked. */
  predicate ChainHit(b: Body, chain: seq<Cert>) {
    exists i :: 0 <= i < |chain| && chain[i].serial in b.revoked
  }

  method ChainRevoked(b: Body, chain: seq<Cert>) returns (revoked: bool)
    ensures revoked <==> ChainHit(b, chain)
  {
    for i := 0 to |chain|
      invariant forall k | 0 <= k < i :: chain[k].serial !in b.revoked
    {
      var hit := Revoked(b, chain[i].serial);
      if hit {
        return true;
      }
    }
    return false;
  }

  // ---------- Adopting a bundle ----------

  predicate SharesRoot(a: Body, b: Body) {
    exists i :: 0 <= i < |a.roots| && a.roots[i] in b.roots
  }

  /** The named key made this signature over exactly this body. */
  predicate Genuine(b: Bundle, trusted: map<nat, nat>) {
    b.keyId in trusted && b.signature == Signature(trusted[b.keyId], b.body)
  }

  /** A node that holds `previous` takes `candidate` at `now`. */
  predicate Adoptable(candidate: Bundle, previous: Bundle, now: int) {
    && WellFormed(candidate.body, now)
    && candidate.body.version > previous.body.version
    && SharesRoot(candidate.body, previous.body)
    && Genuine(candidate, PublicKeys(previous.body.keys, now))
  }

  /** The first bundle of a node, under the root its join token pinned. */
  predicate AdoptableFirst(candidate: Bundle, pin: Option<Cert>, now: int) {
    && WellFormed(candidate.body, now)
    && pin.Some?
    && pin.value in candidate.body.roots
    && Genuine(candidate, PublicKeys(candidate.body.keys, now))
  }

  predicate AdoptableOver(candidate: Bundle, previous: Option<Bundle>, pin: Option<Cert>, now: int) {
    match previous
    case Some(held) => Adoptable(candidate, held, now)
    case None => AdoptableFirst(candidate, pin, now)
  }

  method KeepsARoot(candidate: Body, previous: Body) returns (kept: bool)
    ensures kept <==> SharesRoot(candidate, previous)
  {
    kept := false;
    for i := 0 to |candidate.roots|
      invariant kept <==> exists k :: 0 <= k < i && candidate.roots[k] in previous.roots
    {
      kept := kept || candidate.roots[i] in previous.roots;
    }
  }

  method VerifyBundle(candidate: Bundle, previous: Option<Bundle>, pin: Option<Cert>, now: int)
    returns (r: Result<(), BundleError>)
    ensures r.Ok? <==> AdoptableOver(candidate, previous, pin, now)
    ensures WellFormed(candidate.body, now) && r.Err? ==>
              r.error == match previous
                         case Some(held) =>
                           if candidate.body.version <= held.body.version then NotNewer
                           else if !SharesRoot(candidate.body, held.body) then DropsEveryRoot
                           else if candidate.keyId !in PublicKeys(held.body.keys, now) then UntrustedSigner
                           else BadSignature
                         case None =>
                           if pin.None? || pin.value !in candidate.body.roots then PinMissing
                           else if candidate.keyId !in PublicKeys(candidate.body.keys, now) then UntrustedSigner
                           else BadSignature
  {
    var validated := Validate(candidate.body, now);
    if validated.Err? {
      return validated;
    }
    var trusted: map<nat, nat>;
    if previous.Some? {
      if candidate.body.version <= previous.value.body.version {
        return Err(NotNewer);
      }
      var kept := KeepsARoot(candidate.body, previous.value.body);
      if !kept {
        return Err(DropsEveryRoot);
      }
      trusted := CollectPublicKeys(previous.value.body, now);
    } else {
      var pinned := false;
      for i := 0 to |candidate.body.roots|
        invariant pinned <==> pin.Some? && exists k :: 0 <= k < i && candidate.body.roots[k] == pin.value
      {
        pinned := pinned || pin == Some(candidate.body.roots[i]);
      }
      if !pinned {
        return Err(PinMissing);
      }
      trusted := CollectPublicKeys(candidate.body, now);
    }
    if candidate.keyId !in trusted {
      return Err(UntrustedSigner);
    }
    if candidate.signature != Signature(trusted[candidate.keyId], candidate.body) {
      return Err(BadSignature);
    }
    return Ok(());
  }

  // ---------- Talking to a node ----------

  /** A verified chain the bundle does not stand against. */
  predicate ChainStands(b: Body, chain: seq<Cert>)
    requires |chain| > 0
  {
    chain[|chain| - 1] !in b.roots || !ChainHit(b, chain)
  }

  /**
  `peer` is the certificate the node presented, if any. `chains` are the chains
  it verified with, or nothing when it did not verify. `pinned` says this exact
  certificate was issued to a node, and `named` that it covers the dialed name.
  */
  predicate NodeAccepted(b: Body, peer: Option<Cert>, chains: Option<seq<seq<Cert>>>, pinned: bool, named: bool)
    requires chains.Some? ==> forall i | 0 <= i < |chains.value| :: |chains.value[i]| > 0
  {
    && peer.Some?
    && (|| (chains.Some? && exists i :: 0 <= i < |chains.value| && ChainStands(b, chains.value[i]))
        || (pinned && named && peer.value.serial !in b.revoked))
  }

  method VerifyNode(b: Body, peer: Option<Cert>, chains: Option<seq<seq<Cert>>>, pinned: bool, named: bool,
                    skipVerify: bool)
    returns (accepted: bool)
    requires chains.Some? ==> forall i | 0 <= i < |chains.value| :: |chains.value[i]| > 0
    ensures accepted <==> skipVerify || NodeAccepted(b, peer, chains, pinned, named)
  {
    if skipVerify {
      return true;
    }
    if peer.None? {
      return false;
    }
    if chains.Some? {
      for i := 0 to |chains.value|
        invariant forall k | 0 <= k < i :: !ChainStands(b, chains.value[k])
      {
        var chain := chains.value[i];
        if chain[|chain| - 1] !in b.roots {
          return true;
        }
        var hit := ChainRevoked(b, chain);
        if !hit {
          return true;
        }
      }
    }
    if pinned {
      var hit := Revoked(b, peer.value.serial);
      return !hit && named;
    }
    return false;
  }

  /**
  A leaf whose own serial is revoked is refused, pinned or not, when every chain
  it verifies with starts with it and ends in a root of this authority.
  */
  lemma RevokedLeafRefused(b: Body, leaf: Cert, chains: Option<seq<seq<Cert>>>, pinned: bool, named: bool)
    requires chains.Some? ==> forall i | 0 <= i < |chains.value| :: |chains.value[i]| > 0
    requires chains.Some? ==> forall i | 0 <= i < |chains.value| ::
                 chains.value[i][0] == leaf && chains.value[i][|chains.value[i]| - 1] in b.roots
    requires leaf.serial in b.revoked
    ensures !NodeAccepted(b, Some(leaf), chains, pinned, named)
  {
    if chains.Some? {
      forall i | 0 <= i < |chains.value|
        ensures !ChainStands(b, chains.value[i])
      {
        assert chains.value[i][0].serial in b.revoked;
      }
    }
  }

  // ---------- The rules, spelled out ----------

  /** What makes a bundle well-formed. */
  lemma WellFormedExactly(b: Body, now: int)
    ensures WellFormed(b, now) <==>
              && b.version > 0
              && 0 < |b.roots| <= 2 && 0 < |b.intermediates| <= 2 && 0 < |b.keys| <= 16 && |b.revoked| <= 1024
              && (forall i, j | 0 <= i < |b.keys| && 0 <= j < |b.keys| && i != j :: b.keys[i].id != b.keys[j].id)
              && (forall r | r in b.roots :: r.isCA && now <= r.notAfter)
              && (forall c | c in b.intermediates ::
                    && c.isCA && now <= c.notAfter && c.signedBy != c.key
                    && exists r :: r in b.roots && r != c && r.isCA && c.signedBy == r.key)
  {
    forall i | 0 <= i < |b.intermediates|
      ensures b.intermediates[i].isCA ==>
                (Rooted(b.intermediates[i], b.roots) <==>
                   && b.intermediates[i].signedBy != b.intermediates[i].key
                   && exists r :: r in b.roots && r != b.intermediates[i] && r.isCA && b.intermediates[i].signedBy == r.key)
    {
      if b.intermediates[i].isCA {
        RootedExactly(b.intermediates[i], b.roots);
      }
    }
    hide Rooted;
  }

  lemma RootedExactly(c: Cert, roots: seq<Cert>)
    requires c.isCA
    ensures Rooted(c, roots) <==> c.signedBy != c.key && exists r :: r in roots && r != c && r.isCA && c.signedBy == r.key
  {
  }

  /** Some unexpired entry under the named id made the signature over exactly this body. */
  predicate SignedByListed(b: Bundle, keys: seq<BundleKey>, now: int) {
    exists e :: e in keys && e.id == b.keyId && now < e.notAfter && b.signature == Signature(e.key, b.body)
  }

  lemma GenuineExactly(b: Bundle, keys: seq<BundleKey>, now: int)
    requires DistinctIds(keys)
    ensures Genuine(b, PublicKeys(keys, now)) <==> SignedByListed(b, keys, now)
  {
    if b.keyId in PublicKeys(keys, now) {
      var k :| 0 <= k < |keys| && keys[k].id == b.keyId && now < keys[k].notAfter;
      PublicKeysHold(keys, now, k);
      assert keys[k] in keys;
    }
    forall e | e in keys && e.id == b.keyId && now < e.notAfter
      ensures b.keyId in PublicKeys(keys, now) && PublicKeys(keys, now)[b.keyId] == e.key
    {
      var k :| 0 <= k < |keys| && keys[k] == e;
      PublicKeysHold(keys, now, k);
    }
  }

  /** A first bundle is taken exactly under the pinned root and signed by a key it lists; without a pin never. */
  lemma FirstExactly(candidate: Bundle, pin: Option<Cert>, now: int)
    ensures AdoptableOver(candidate, None, pin, now) <==>
              && WellFormed(candidate.body, now) && pin.Some? && pin.value in candidate.body.roots
              && SignedByListed(candidate, candidate.body.keys, now)
  {
    hide PublicKeys, Genuine, SignedByListed;
    if WellFormed(candidate.body, now) {
      GenuineExactly(candidate, candidate.body.keys, now);
    }
  }

  /** A later one exactly if it is newer, has a root in common and is signed by a key the held one lists. */
  lemma LaterExactly(candidate: Bundle, held: Bundle, pin: Option<Cert>, now: int)
    requires DistinctIds(held.body.keys)
    ensures AdoptableOver(candidate, Some(held), pin, now) <==>
              && WellFormed(candidate.body, now) && held.body.version < candidate.body.version
              && (exists r :: r in candidate.body.roots && r in held.body.roots)
              && SignedByListed(candidate, held.body.keys, now)
  {
    hide PublicKeys, Genuine, SignedByListed, WellFormed;
    GenuineExactly(candidate, held.body.keys, now);
  }

  /** A chain that ends outside the authority, or has nothing revoked on it. */
  predicate Unobjectionable(b: Body, chain: seq<Cert>)
    requires |chain| > 0
  {
    chain[|chain| - 1] in b.roots ==> forall c | c in chain :: c.serial !in b.revoked
  }

  /** A node is talked to exactly if it shows a certificate that stands by a chain, or the very one issued to it. */
  lemma AcceptedExactly(b: Body, peer: Option<Cert>, chains: Option<seq<seq<Cert>>>, pinned: bool, named: bool)
    requires chains.Some? ==> forall i | 0 <= i < |chains.value| :: |chains.value[i]| > 0
    ensures NodeAccepted(b, peer, chains, pinned, named) <==>
              && peer.Some?
              && (|| (chains.Some? && exists i :: 0 <= i < |chains.value| && Unobjectionable(b, chains.value[i]))
                  || (pinned && named && peer.value.serial !in b.revoked))
  {
    hide ChainStands, Unobjectionable;
    if chains.Some? {
      forall i | 0 <= i < |chains.value|
        ensures ChainStands(b, chains.value[i]) <==> Unobjectionable(b, chains.value[i])
      {
        StandsExactly(b, chains.value[i]);
      }
    }
  }

  lemma StandsExactly(b: Body, chain: seq<Cert>)
    requires |chain| > 0
    ensures ChainStands(b, chain) <==> Unobjectionable(b, chain)
  {
  }
}
