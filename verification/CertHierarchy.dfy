/** The root CA and a server certificate issued from it, over runs in which the operator renews both, reads may be stale,
    writes may be lost, and outsiders may replace the root CA. */
module CertHierarchy {
  import opened Wrappers
  import opened Cluster
  import opened Certs
  import opened CertRenewal

  /** All versions of the two Secrets. */
  datatype Pki = Pki(now: Time, root: seq<CertSecret>, server: seq<CertSecret>)

  datatype Step =
    | Wait(now: Time)
    | RenewRoot(copy: Option<nat>, commonName: string, labels: map<string, string>, key: Key, f: Fault)
    | RenewServer(copy: Option<nat>, ca: nat, owner: Option<string>, labels: map<string, string>, dnsNames: seq<string>,
                  key: Key, f: Fault)
    | ReplaceRoot(secret: CertSecret)

  /** The certificate has the lifetime of the CAs that the operator generates. */
  predicate HasCaLifetime(c: Certificate) {
    c.notAfter - c.notBefore == CA_TTL
  }

  /** How long past its renewal time a CA may still issue server certificates. */
  const SLACK: int := CA_TTL / 4 - CERT_TTL

  predicate Timely(c: Certificate, now: Time) {
    HasCaLifetime(c) ==> now <= NextRenewal(c) + SLACK
  }

  predicate InRange(vs: seq<CertSecret>, i: Option<nat>) {
    i.Some? ==> i.value < |vs|
  }

  function RootRequest(a: Step): Request
    requires a.RenewRoot?
  {
    Request(RootOrAuthCA(a.commonName), None, a.labels)
  }

  function ServerRequest(a: Step, ca: KeyPair): Request
    requires a.RenewServer?
  {
    Request(Server(a.dnsNames, ca), a.owner, a.labels)
  }

  predicate Possible(s: Pki, a: Step) {
    && AllReadable(s.root) && AllReadable(s.server)
    && match a
       case Wait(now) => now >= s.now
       case RenewRoot(copy, _, _, _, _) => InRange(s.root, copy)
       case RenewServer(copy, ca, _, _, dnsNames, _, _) =>
         InRange(s.server, copy) && ca < |s.root| && dnsNames != [] && RootCACert(Some(s.root[ca])).Some?
       case ReplaceRoot(secret) => Readable(secret) && secret.version == |s.root| + 1
  }

  /** The root CA that issues a server certificate is renewed in time. */
  predicate Can(s: Pki, a: Step) {
    Possible(s, a) && (a.RenewServer? ==> Timely(RootCACert(Some(s.root[a.ca])).value.cert, s.now))
  }

  function Appended(vs: seq<CertSecret>, out: Outcome): seq<CertSecret> {
    if out.stored == Stored(vs) || out.stored.None? then vs else vs + [out.stored.value]
  }

  function Do(s: Pki, a: Step): Pki
    requires Possible(s, a)
  {
    match a
    case Wait(now) => s.(now := now)
    case RenewRoot(copy, _, _, key, f) =>
      s.(root := Appended(s.root, Renew(Stored(s.root), Copy(s.root, copy), RootRequest(a), s.now, key, |s.root| + 1, f)))
    case RenewServer(copy, ca, _, _, _, key, f) =>
      var issuer := RootCACert(Some(s.root[ca])).value;
      s.(server := Appended(s.server,
           Renew(Stored(s.server), Copy(s.server, copy), ServerRequest(a, issuer), s.now, key, |s.server| + 1, f)))
    case ReplaceRoot(secret) => s.(root := s.root + [secret])
  }

  /** The pair was issued by the pair in this version of the root Secret, whose certificate is shown beside it. */
  predicate IssuedFrom(root: CertSecret, p: KeyPair) {
    && Readable(root) && RootCACert(Some(root)).Some?
    && var ca := RootCACert(Some(root)).value;
       && p.caBlob == ca.blob && p.cert.signedBy == ca.key && p.blob == CertBlock(p.cert)
       && !p.cert.isCA && p.cert.publicKey == p.key && p.cert.dnsNames != [] && p.cert.commonName == p.cert.dnsNames[0]
       && (HasCaLifetime(ca.cert) ==> p.cert.notAfter <= ca.cert.notAfter)
  }

  predicate Issued(roots: seq<CertSecret>, s: CertSecret) {
    && Readable(s) && CertFromMap(s.data).Some?
    && exists i :: 0 <= i < |roots| && IssuedFrom(roots[i], CertFromMap(s.data).value)
  }

  predicate PkiOk(s: Pki) {
    && AllReadable(s.root) && (forall i :: 0 <= i < |s.server| ==> Issued(s.root, s.server[i]))
    && (forall i :: 0 <= i < |s.server| ==> s.server[i].version == i + 1)
  }

  /** A certificate that the operator issues at `now` ends by the end of its CA's exactly if the CA is at most `SLACK`
      past its renewal time, to the second. */
  lemma EndsBeforeIssuerIff(ca: KeyPair, dnsNames: seq<string>, now: Time, key: Key)
    requires dnsNames != [] && ca.blob == CertBlock(ca.cert) && HasCaLifetime(ca.cert)
    ensures NewServerKeyPair(dnsNames, ca, now, key).blob.cert.notAfter <= ca.cert.notAfter
            <==> WholeSecond(now) <= NextRenewal(ca.cert) + SLACK
  {
    WholeSecondShift(now, CERT_TTL);
  }

  lemma MadeIsIssued(root: CertSecret, dnsNames: seq<string>, now: Time, key: Key)
    requires dnsNames != [] && Readable(root) && RootCACert(Some(root)).Some?
    requires Timely(RootCACert(Some(root)).value.cert, now)
    ensures IssuedFrom(root, Reread(NewServerKeyPair(dnsNames, RootCACert(Some(root)).value, now, key)))
  {
    var ca := RootCACert(Some(root)).value;
    MakeFits(Server(dnsNames, ca), now, key);
    WholeSecondShift(now, 0);
    if HasCaLifetime(ca.cert) {
      EndsBeforeIssuerIff(ca, dnsNames, now, key);
    }
  }

  lemma RootGrows(s: Pki, root: seq<CertSecret>)
    requires PkiOk(s) && AllReadable(root) && s.root <= root
    ensures PkiOk(s.(root := root))
  {
    forall j | 0 <= j < |s.server|
      ensures Issued(root, s.server[j])
    {
      assert Issued(s.root, s.server[j]);
      var i :| 0 <= i < |s.root| && IssuedFrom(s.root[i], CertFromMap(s.server[j].data).value);
      assert IssuedFrom(root[i], CertFromMap(s.server[j].data).value);
    }
  }

  /** What the renewal makes of a Secret that it read: the pair is the one that was there or one issued now. */
  lemma MutatedIsIssued(s: Pki, a: Step, read: Option<CertSecret>)
    requires PkiOk(s) && Can(s, a) && a.RenewServer? && (read.Some? ==> Issued(s.root, read.value))
    ensures var ca := RootCACert(Some(s.root[a.ca])).value;
            var m := Mutate(read, ServerRequest(a, ca), s.now, a.key);
            m.Mutated? ==> Issued(s.root, m.s)
  {
    var ca := RootCACert(Some(s.root[a.ca])).value;
    var made := NewServerKeyPair(a.dnsNames, ca, s.now, a.key);
    MadeIsIssued(s.root[a.ca], a.dnsNames, s.now, a.key);
    MapRoundTrip(made, map[]);
  }

  lemma StepKeepsOk(s: Pki, a: Step)
    requires PkiOk(s) && Can(s, a)
    ensures PkiOk(Do(s, a))
  {
    match a
    case Wait(_) =>
    case ReplaceRoot(secret) => RootGrows(s, s.root + [secret]);
    case RenewRoot(_, _, _, _, _) =>
      RootRenewalReadable(s, a);
      RootGrows(s, Do(s, a).root);
    case RenewServer(_, _, _, _, _, _, _) => ServerKeepsOk(s, a);
  }

  lemma ServerKeepsOk(s: Pki, a: Step)
    requires PkiOk(s) && Can(s, a) && a.RenewServer?
    ensures PkiOk(Do(s, a))
  {
    MutatedIsIssued(s, a, Copy(s.server, a.copy));
    var server := Do(s, a).server;
    assert forall i :: 0 <= i < |s.server| ==> server[i] == s.server[i];
  }

  lemma RootRenewalReadable(s: Pki, a: Step)
    requires PkiOk(s) && Can(s, a) && a.RenewRoot?
    ensures AllReadable(Do(s, a).root) && s.root <= Do(s, a).root
  {
    MapRoundTrip(Make(RootRequest(a).kind, s.now, a.key), map[]);
  }

  /** A history that starts without a server certificate, with any root Secret. */
  predicate IsRun(tr: seq<Pki>, steps: seq<Step>) {
    && |tr| == |steps| + 1 && tr[0].server == [] && AllReadable(tr[0].root)
    && forall i :: 0 <= i < |steps| ==> Can(tr[i], steps[i]) && tr[i + 1] == Do(tr[i], steps[i])
  }

  lemma {:induction false} ReachableOk(tr: seq<Pki>, steps: seq<Step>, i: nat)
    requires IsRun(tr, steps) && i < |tr|
    ensures PkiOk(tr[i])
  {
    if i > 0 {
      ReachableOk(tr, steps, i - 1);
      StepKeepsOk(tr[i - 1], steps[i - 1]);
    }
  }

  /** The pair's own certificate belongs to its key. */
  predicate KeyMatches(root: CertSecret) {
    Readable(root) && RootCACert(Some(root)).Some? ==>
      RootCACert(Some(root)).value.cert.publicKey == RootCACert(Some(root)).value.key
  }

  /** The stored entries: a server certificate whose common name is the first of its names, the key that belongs to it,
      and beside them the certificate of the CA that signed it. */
  predicate Backed(m: Data) {
    && At(m, TlsCrt).CertBlock? && At(m, CaCrt).CertBlock?
    && var c, ca := At(m, TlsCrt).cert, At(m, CaCrt).cert;
       && At(m, TlsKey) == KeyBlock(c.publicKey) && ca.publicKey == c.signedBy
       && !c.isCA && c.dnsNames != [] && c.commonName == c.dnsNames[0]
  }

  /** In every state the certificate shown beside a server certificate is its signer's, even if the root CA has been
      replaced since, provided each root pair's key belongs to its certificate; and no server certificate ends after an
      operator-generated CA that issued it. */
  lemma ServerCertificateIsBacked(tr: seq<Pki>, steps: seq<Step>, i: nat)
    requires IsRun(tr, steps) && i < |tr| && tr[i].server != []
    requires forall j :: 0 <= j < |tr[i].root| ==> KeyMatches(tr[i].root[j])
    ensures var s := Stored(tr[i].server).value;
            && s.data.Some? && Backed(s.data.value)
            && var c, ca := At(s.data.value, TlsCrt).cert, At(s.data.value, CaCrt).cert;
               HasCaLifetime(ca) ==> c.notAfter <= ca.notAfter
  {
    ReachableOk(tr, steps, i);
    var s := Stored(tr[i].server).value;
    assert Issued(tr[i].root, s);
    var j :| 0 <= j < |tr[i].root| && IssuedFrom(tr[i].root[j], CertFromMap(s.data).value);
    assert KeyMatches(tr[i].root[j]);
  }

  /** The proviso is needed: the certificate shown is the signer's exactly if the root pair's key belongs to it. */
  lemma SignerShownIff(root: CertSecret, p: KeyPair)
    requires IssuedFrom(root, p)
    ensures p.caBlob.CertBlock? && (p.caBlob.cert.publicKey == p.cert.signedBy <==> KeyMatches(root))
  {
  }

  /** A root pair as the operator generates it. */
  predicate OwnRoot(root: CertSecret) {
    && Readable(root) && RootCACert(Some(root)).Some? && KeyMatches(root)
    && RootCACert(Some(root)).value.cert.isCA && HasCaLifetime(RootCACert(Some(root)).value.cert)
  }

  /** With no outsider's root CA every version of the root Secret is the operator's, so that the provisos hold. */
  lemma {:induction false} OperatorRoots(tr: seq<Pki>, steps: seq<Step>, i: nat, j: nat)
    requires IsRun(tr, steps) && i < |tr| && tr[0].root == [] && forall k :: 0 <= k < |steps| ==> !steps[k].ReplaceRoot?
    requires j < |tr[i].root|
    ensures OwnRoot(tr[i].root[j])
  {
    var s, a := tr[i - 1], steps[i - 1];
    if j < |s.root| {
      OperatorRoots(tr, steps, i - 1, j);
    } else {
      if a.copy.Some? {
        OperatorRoots(tr, steps, i - 1, a.copy.value);
      }
      MakeFits(RootRequest(a).kind, s.now, a.key);
      MapRoundTrip(Make(RootRequest(a).kind, s.now, a.key), map[]);
    }
  }
}
