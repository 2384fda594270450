/** What the authority signs: roots, intermediates and leaves. */
module PkiCa {
  import opened Wrappers
  import opened PkiTypes

  datatype IssueError = ValidityOutOfRange | NoName | IssuerExpired

  function NewRoot(number: nat, now: int): (root: Cert)
    ensures SignedBy(root, root)
    ensures root.notBefore <= now < root.notAfter
  {
    Cert(number, number, number, true, now - CLOCK_SKEW, now + ROOT_VALIDITY)
  }

  /** An intermediate never outlives the root that signs it. */
  function NewIntermediate(root: Cert, number: nat, now: int): (r: Result<Cert, PkiError>)
    ensures r.Ok? <==> now <= root.notAfter - INTERMEDIATE_VALIDITY
    ensures r.Ok? ==> r.value.signedBy == root.key && now < r.value.notAfter <= root.notAfter
    ensures r.Ok? && root.notBefore <= now - CLOCK_SKEW ==> Within(r.value, root)
  {
    var notAfter := now + INTERMEDIATE_VALIDITY;
    if notAfter > root.notAfter then Err(RootTooShort)
    else Ok(Cert(number, number, root.key, true, now - CLOCK_SKEW, notAfter))
  }

  /**
  A leaf, asked for with some validity (0 is the default). A server leaf needs a
  name. Its window is cut at the issuer's end.
  */
  function Issue(issuer: Cert, number: nat, subject: nat, server: bool, names: nat, validity: int, now: int)
    : (r: Result<Cert, IssueError>)
    ensures r.Ok? && issuer.notBefore <= now - CLOCK_SKEW ==> Within(r.value, issuer)
    ensures r.Ok? ==>
              && r.value.signedBy == issuer.key
              && !r.value.isCA
              && r.value.notBefore <= now < r.value.notAfter <= now + MAX_LEAF_VALIDITY
    ensures r.Ok? <==>
              && (validity == 0 || MIN_LEAF_VALIDITY <= validity <= MAX_LEAF_VALIDITY)
              && (server ==> names > 0)
              && now < issuer.notAfter
  {
    var wanted := if validity == 0 then DEFAULT_LEAF_VALIDITY else validity;
    if wanted < MIN_LEAF_VALIDITY || wanted > MAX_LEAF_VALIDITY then Err(ValidityOutOfRange)
    else if server && names == 0 then Err(NoName)
    else
      var end := now + wanted;
      var notAfter := if end > issuer.notAfter then issuer.notAfter else end;
      if notAfter <= now then Err(IssuerExpired)
      else Ok(Cert(number, subject, issuer.key, false, now - CLOCK_SKEW, notAfter))
  }

  /** Two thirds of a life from `notBefore` to `notAfter` have passed. */
  predicate LifeSpent(notBefore: int, notAfter: int, now: int) {
    now >= notBefore + (notAfter - notBefore) * 2 / 3
  }

  predicate RenewalDue(cert: Cert, now: int) {
    LifeSpent(cert.notBefore, cert.notAfter, now)
  }

  /** A leaf is for its subject under its number, starts five minutes back and ends when asked or with its issuer. */
  lemma IssuedExactly(issuer: Cert, number: nat, subject: nat, server: bool, names: nat, validity: int, now: int)
    ensures var r := Issue(issuer, number, subject, server, names, validity, now);
            r.Ok? ==>
              && r.value.serial == number && r.value.key == subject && r.value.signedBy == issuer.key && !r.value.isCA
              && r.value.notBefore == now - 300
              && (var end := now + if validity == 0 then 90 * DAY else validity;
                  r.value.notAfter == if issuer.notAfter < end then issuer.notAfter else end)
  {
  }
}
