/** Certificates, key pairs and the renewal of the Secrets that hold them. Cryptography is symbolic: a key is a number, a
    certificate names its subject's key and the key that signed it. */
module Certs {
  import opened Wrappers
  import opened Cluster

  const CA_TTL: Duration := 24 * 365 * 5 * HOUR
  const CERT_TTL: Duration := 24 * 90 * HOUR

  type Key = nat

  datatype Certificate = Certificate(
    commonName: string, notBefore: Time, notAfter: Time, isCA: bool, dnsNames: seq<string>, publicKey: Key, signedBy: Key)

  /** File contents: the PEM blocks that parse, a block that does not (or is of another type), and text without a block. */
  datatype Blob = CertBlock(cert: Certificate) | KeyBlock(key: Key) | OtherBlock(text: string) | NoBlock(text: string)

  /** `blob` is the signed certificate as it is stored; `cert` is the certificate in memory. */
  datatype KeyPair = KeyPair(caBlob: Blob, blob: Blob, cert: Certificate, key: Key)

  // ----- Key pairs -----

  /** The encoding has no fractions of a second. */
  function Signed(c: Certificate): Blob {
    CertBlock(c.(notBefore := WholeSecond(c.notBefore), notAfter := WholeSecond(c.notAfter)))
  }

  /** Integer division that truncates toward zero. */
  function TruncDiv(a: int, b: int): int
    requires b != 0
  {
    if (a >= 0) == (b > 0) then (if a >= 0 then a / b else (-a) / (-b))
    else -((if a >= 0 then a else -a) / (if b > 0 then b else -b))
  }

  function NextRenewal(c: Certificate): Time {
    c.notAfter + TruncDiv(c.notAfter - c.notBefore, -4)
  }

  predicate NeedsRenewal(c: Certificate, now: Time) {
    now > NextRenewal(c)
  }

  function NewSelfSignedCAKeyPair(commonName: string, now: Time, key: Key): KeyPair {
    var c := Certificate(commonName, now, now + CA_TTL, true, [], key, key);
    KeyPair(Signed(c), Signed(c), c, key)
  }

  function NewServerKeyPair(dnsNames: seq<string>, ca: KeyPair, now: Time, key: Key): KeyPair
    requires dnsNames != []
  {
    var c := Certificate(dnsNames[0], now, now + CERT_TTL, false, dnsNames, key, ca.key);
    KeyPair(ca.blob, Signed(c), c, key)
  }

  /** For a lifetime that is not negative, renewal falls due a quarter of it, rounded down, before the end. */
  lemma RenewalAtThreeQuarters(c: Certificate)
    requires c.notBefore <= c.notAfter
    ensures NextRenewal(c) == c.notAfter - (c.notAfter - c.notBefore) / 4
    ensures c.notBefore <= NextRenewal(c) <= c.notAfter
    ensures forall t :: !NeedsRenewal(c, t) ==> t + (c.notAfter - c.notBefore) / 4 <= c.notAfter
  {
  }

  // ----- Secrets -----

  /** The entries of a Secret's data. */
  datatype DataKey = CaCrt | TlsCrt | TlsKey | Extra(name: string)

  type Data = map<DataKey, Blob>

  function At(m: Data, k: DataKey): Blob {
    if k in m then m[k] else NoBlock("")
  }

  /** Parsing fails on a missing block, so both entries that are looked at must have one. */
  predicate HasBlocks(m: Data) {
    !At(m, TlsKey).NoBlock? && !At(m, TlsCrt).NoBlock?
  }

  function CertFromMap(m: Option<Data>): Option<KeyPair>
    requires m.Some? ==> HasBlocks(m.value)
  {
    if m.None? then None
    else
      var key, cert := At(m.value, TlsKey), At(m.value, TlsCrt);
      if key.KeyBlock? && cert.CertBlock? then Some(KeyPair(At(m.value, CaCrt), cert, cert.cert, key.key)) else None
  }

  function CertToMap(p: KeyPair): Data {
    map[CaCrt := p.caBlob, TlsCrt := p.blob, TlsKey := KeyBlock(p.key)]
  }

  /** The pair that is read back: the certificate as it was encoded. */
  function Reread(p: KeyPair): KeyPair
    requires p.blob.CertBlock?
  {
    p.(cert := p.blob.cert)
  }

  /** Storing and loading returns the stored pair, and loading and storing the stored entries. */
  lemma MapRoundTrip(p: KeyPair, m: Data)
    ensures p.blob.CertBlock? ==> HasBlocks(CertToMap(p)) && CertFromMap(Some(CertToMap(p))) == Some(Reread(p))
    ensures HasBlocks(m) && CertFromMap(Some(m)).Some? ==>
              forall k :: k in {CaCrt, TlsCrt, TlsKey} ==> At(CertToMap(CertFromMap(Some(m)).value), k) == At(m, k)
  {
  }

  /** Encoding keeps a whole-second lifetime and moves both ends back to their second. */
  lemma EncodedValidity(p: KeyPair, ttl: int)
    requires p.blob == Signed(p.cert) && p.cert.notAfter == p.cert.notBefore + ttl && ttl % SECOND == 0 && ttl >= 0
    ensures var c := Reread(p).cert;
            && c.notAfter - c.notBefore == ttl && c.notBefore == WholeSecond(p.cert.notBefore)
            && NextRenewal(c) <= NextRenewal(p.cert) < NextRenewal(c) + SECOND
  {
    WholeSecondShift(p.cert.notBefore, ttl);
  }

  lemma WholeSecondShift(t: Time, d: int)
    requires d % SECOND == 0
    ensures WholeSecond(t + d) == WholeSecond(t) + d && WholeSecond(t) <= t < WholeSecond(t) + SECOND
  {
    var q := d / SECOND;
    assert d == q * SECOND;
    assert (t + d) % SECOND == t % SECOND by {
      assert t == (t / SECOND) * SECOND + t % SECOND;
      assert t + d == (t / SECOND + q) * SECOND + t % SECOND;
    }
  }

  const OPERATOR_NAME := "image-registry-operator"

  datatype Labels = Labels(managedBy: string, others: map<string, string>)

  /** A stored Secret; `controller` is the object that controls it. */
  datatype CertSecret = CertSecret(
    version: nat, labels: Labels, tls: bool, controller: Option<string>, data: Option<Data>)

  predicate Managed(s: CertSecret) {
    s.labels.managedBy == OPERATOR_NAME
  }

  predicate Readable(s: CertSecret) {
    s.data.Some? ==> HasBlocks(s.data.value)
  }

  // ----- Requests -----

  datatype Kind = RootOrAuthCA(commonName: string) | Server(dnsNames: seq<string>, ca: KeyPair)

  datatype Request = Request(kind: Kind, owner: Option<string>, labels: map<string, string>)

  predicate ValidRequest(r: Request) {
    r.kind.Server? ==> r.kind.dnsNames != [] && r.kind.ca.blob.CertBlock?
  }

  /** The stored pair is not of the kind that is asked for. */
  predicate Unfit(k: Kind, c: Certificate) {
    match k
    case RootOrAuthCA(_) => !c.isCA
    case Server(dnsNames, _) => c.isCA || c.dnsNames != dnsNames
  }

  function Make(k: Kind, now: Time, key: Key): KeyPair
    requires k.Server? ==> k.dnsNames != []
  {
    match k
    case RootOrAuthCA(commonName) => NewSelfSignedCAKeyPair(commonName, now, key)
    case Server(dnsNames, ca) => NewServerKeyPair(dnsNames, ca, now, key)
  }

  function Ttl(k: Kind): int {
    if k.Server? then CERT_TTL else CA_TTL
  }

  /** A made pair: of its kind, with the kind's lifetime, not due, and encoded in its blob. */
  lemma MakeFits(k: Kind, now: Time, key: Key)
    requires k.Server? ==> k.dnsNames != []
    ensures var p := Make(k, now, key);
            && p.blob == Signed(p.cert) && p.cert.publicKey == p.key == key
            && p.cert.commonName == (if k.Server? then k.dnsNames[0] else k.commonName)
            && !Unfit(k, p.cert) && !Unfit(k, p.blob.cert)
            && p.blob.cert.notAfter - p.blob.cert.notBefore == Ttl(k) && p.blob.cert.notBefore == WholeSecond(now)
            && NextRenewal(p.blob.cert) <= NextRenewal(p.cert) < NextRenewal(p.blob.cert) + SECOND
            && !NeedsRenewal(p.blob.cert, now)
            && p.blob.cert.signedBy == (if k.Server? then k.ca.key else key)
            && p.caBlob == (if k.Server? then k.ca.blob else p.blob)
  {
    EncodedValidity(Make(k, now, key), Ttl(k));
    WholeSecondShift(now, Ttl(k));
  }

  /** A CA certificate as it is stored: five years of 365 days from the second in which it is made. */
  lemma CaAsMade(commonName: string, now: Time, key: Key)
    ensures var from := now - now % 1_000_000_000;
            var c := Certificate(commonName, from, from + 157_680_000 * 1_000_000_000, true, [], key, key);
            && NewSelfSignedCAKeyPair(commonName, now, key).blob == CertBlock(c)
            && CertToMap(NewSelfSignedCAKeyPair(commonName, now, key))
               == map[CaCrt := CertBlock(c), TlsCrt := CertBlock(c), TlsKey := KeyBlock(key)]
  {
    WholeSecondShift(now, CA_TTL);
  }

  /** A server certificate as it is stored: 90 days, for these names, the first of which is its common name. */
  lemma ServerAsMade(dnsNames: seq<string>, ca: KeyPair, now: Time, key: Key)
    requires dnsNames != []
    ensures var from := now - now % 1_000_000_000;
            var c := Certificate(dnsNames[0], from, from + 7_776_000 * 1_000_000_000, false, dnsNames, key, ca.key);
            && NewServerKeyPair(dnsNames, ca, now, key).blob == CertBlock(c)
            && CertToMap(NewServerKeyPair(dnsNames, ca, now, key))
               == map[CaCrt := ca.blob, TlsCrt := CertBlock(c), TlsKey := KeyBlock(key)]
  {
    WholeSecondShift(now, CERT_TTL);
  }

  // ----- Renewal -----

  datatype Error = AlreadyOwned | UnmanagedValid | UnmanagedInvalid | WriteFailed

  /** The stored Secret afterwards, the pair in hand, and the error. */
  datatype Outcome = Outcome(stored: Option<CertSecret>, pair: Option<KeyPair>, error: Option<Error>)

  /** What the closure makes of the Secret that was read; `s` is blank when there was none. */
  datatype Mutation = Refused(e: Error, pair: Option<KeyPair>) | Mutated(s: CertSecret, made: KeyPair)

  const BLANK := CertSecret(0, Labels("", map[]), false, None, None)

  function Mutate(read: Option<CertSecret>, r: Request, now: Time, key: Key): Mutation
    requires ValidRequest(r) && (read.Some? ==> Readable(read.value))
  {
    var s := if read.Some? then read.value else BLANK;
    var pair := CertFromMap(s.data);
    if r.owner.Some? && s.controller.Some? && s.controller != r.owner then Refused(AlreadyOwned, pair)
    else if read.Some? && !Managed(s) then
      Refused(if pair.None? || NeedsRenewal(pair.value.cert, now) then UnmanagedInvalid else UnmanagedValid, pair)
    else
      var s' := s.(labels := Labels(OPERATOR_NAME, r.labels), tls := true,
                   controller := if r.owner.Some? then r.owner else s.controller);
      if pair.None? || NeedsRenewal(pair.value.cert, now) || Unfit(r.kind, pair.value.cert) then
        var made := Make(r.kind, now, key);
        Mutated(s'.(data := Some(CertToMap(made))), made)
      else Mutated(s', pair.value)
  }

  /** Creates the Secret if none was read, else updates it if it changed and still is as it was read. */
  function Put(stored: Option<CertSecret>, read: Option<CertSecret>, s: CertSecret, rev: nat, f: Fault): (Option<CertSecret>, bool) {
    if read == Some(s) then (stored, true)
    else if f.DroppedRequest? then (stored, false)
    else if read.None? && stored.None? then (Some(s.(version := rev)), f.Reliable?)
    else if read.Some? && stored.Some? && stored.value.version == read.value.version then (Some(s.(version := rev)), f.Reliable?)
    else (stored, false)
  }

  function Renew(stored: Option<CertSecret>, read: Option<CertSecret>, r: Request, now: Time, key: Key, rev: nat, f: Fault): Outcome
    requires ValidRequest(r) && (read.Some? ==> Readable(read.value))
  {
    match Mutate(read, r, now, key)
    case Refused(e, pair) => Outcome(stored, pair, Some(e))
    case Mutated(s, pair) =>
      var (after, ok) := Put(stored, read, s, rev, f);
      Outcome(after, Some(pair), if ok then None else Some(WriteFailed))
  }

  /** A read returns the stored Secret or what was stored under an older version. */
  predicate ReadOf(stored: Option<CertSecret>, read: Option<CertSecret>) {
    stored.Some? && read.Some? && stored.value.version == read.value.version ==> stored == read
  }

  /** A Secret that is not labelled as managed is never changed, whatever was read of it and whatever is asked for. */
  lemma UnmanagedIsNeverChanged(stored: Option<CertSecret>, read: Option<CertSecret>, r: Request,
                                now: Time, key: Key, rev: nat, f: Fault)
    requires ValidRequest(r) && (read.Some? ==> Readable(read.value)) && ReadOf(stored, read)
    requires stored.Some? && !Managed(stored.value)
    ensures Renew(stored, read, r, now, key, rev, f).stored == stored
    ensures read == stored ==> Renew(stored, read, r, now, key, rev, f).error.Some?
  {
  }

  /** The Secret holds a fit pair that is not due, and shows it. */
  predicate Holds(s: CertSecret, k: Kind, now: Time) {
    && Managed(s) && Readable(s) && s.tls && CertFromMap(s.data).Some?
    && !Unfit(k, CertFromMap(s.data).value.cert) && !NeedsRenewal(CertFromMap(s.data).value.cert, now)
  }

  /** A successful call that read the stored Secret leaves a managed pair of the requested kind that is not due;
      the pair returned is the stored one up to the fraction of a second. */
  lemma SuccessHolds(stored: Option<CertSecret>, r: Request, now: Time, key: Key, rev: nat, f: Fault)
    requires ValidRequest(r) && (stored.Some? ==> Readable(stored.value))
    requires Renew(stored, stored, r, now, key, rev, f).error.None?
    ensures var out := Renew(stored, stored, r, now, key, rev, f);
            && out.stored.Some? && Holds(out.stored.value, r.kind, now)
            && out.stored.value.labels.others == r.labels
            && (r.owner.Some? ==> out.stored.value.controller == r.owner)
            && out.pair.Some? && out.pair.value.blob.CertBlock?
            && CertFromMap(out.stored.value.data) == Some(Reread(out.pair.value))
            && NextRenewal(out.pair.value.blob.cert) <= NextRenewal(out.pair.value.cert)
  {
    MakeFits(r.kind, now, key);
    MapRoundTrip(Make(r.kind, now, key), map[]);
  }

  /** The stored entries hold a key and a server certificate for exactly these names that is not due at this time. */
  predicate Serves(m: Data, dnsNames: seq<string>, now: Time) {
    && At(m, TlsKey).KeyBlock? && At(m, TlsCrt).CertBlock?
    && !At(m, TlsCrt).cert.isCA && At(m, TlsCrt).cert.dnsNames == dnsNames && now <= NextRenewal(At(m, TlsCrt).cert)
  }

  /** A successful call for a server certificate: the Secret is managed, controlled by its owner, and its entries serve the
      names. They are as they were if they did before, and new ones from the given CA if not. */
  lemma ServerSecret(stored: Option<CertSecret>, dnsNames: seq<string>, ca: KeyPair, owner: string,
                     labels: map<string, string>, now: Time, key: Key, rev: nat, f: Fault)
    requires dnsNames != [] && ca.blob.CertBlock? && (stored.Some? ==> Readable(stored.value))
    requires Renew(stored, stored, Request(Server(dnsNames, ca), Some(owner), labels), now, key, rev, f).error.None?
    ensures var after := Renew(stored, stored, Request(Server(dnsNames, ca), Some(owner), labels), now, key, rev, f).stored;
            && after.Some? && after.value.labels == Labels("image-registry-operator", labels) && after.value.tls
            && after.value.controller == Some(owner) && after.value.data.Some?
            && Serves(after.value.data.value, dnsNames, now)
            && after.value.data
               == if stored.Some? && stored.value.data.Some? && Serves(stored.value.data.value, dnsNames, now)
                  then stored.value.data else Some(CertToMap(NewServerKeyPair(dnsNames, ca, now, key)))
  {
    MakeFits(Server(dnsNames, ca), now, key);
    MapRoundTrip(NewServerKeyPair(dnsNames, ca, now, key), map[]);
  }

  /** The stored entries hold a key and a CA certificate that is not due at this time. */
  predicate Certifies(m: Data, now: Time) {
    && At(m, TlsKey).KeyBlock? && At(m, TlsCrt).CertBlock?
    && At(m, TlsCrt).cert.isCA && now <= NextRenewal(At(m, TlsCrt).cert)
  }

  /** The same for a CA, which signs itself and is new if the stored one does not serve as a CA. */
  lemma CaSecret(stored: Option<CertSecret>, commonName: string, owner: Option<string>, labels: map<string, string>,
                 now: Time, key: Key, rev: nat, f: Fault)
    requires stored.Some? ==> Readable(stored.value)
    requires Renew(stored, stored, Request(RootOrAuthCA(commonName), owner, labels), now, key, rev, f).error.None?
    ensures var after := Renew(stored, stored, Request(RootOrAuthCA(commonName), owner, labels), now, key, rev, f).stored;
            && after.Some? && after.value.labels == Labels("image-registry-operator", labels) && after.value.tls
            && (owner.Some? ==> after.value.controller == owner) && after.value.data.Some?
            && Certifies(after.value.data.value, now)
            && after.value.data
               == if stored.Some? && stored.value.data.Some? && Certifies(stored.value.data.value, now)
                  then stored.value.data else Some(CertToMap(NewSelfSignedCAKeyPair(commonName, now, key)))
  {
    MakeFits(RootOrAuthCA(commonName), now, key);
    MapRoundTrip(NewSelfSignedCAKeyPair(commonName, now, key), map[]);
  }

  /** When a call is refused, and why: another controller first, then a Secret without the operator's label, which is valid
      if it parses and is not due. */
  lemma RefusedIff(s: CertSecret, r: Request, now: Time, key: Key, rev: nat, f: Fault)
    requires ValidRequest(r) && Readable(s)
    ensures var error := Renew(Some(s), Some(s), r, now, key, rev, f).error;
            var foreign := r.owner.Some? && s.controller.Some? && s.controller.value != r.owner.value;
            var unmanaged := s.labels.managedBy != "image-registry-operator";
            var valid := CertFromMap(s.data).Some? && now <= NextRenewal(CertFromMap(s.data).value.cert);
            && (error == Some(AlreadyOwned) <==> foreign)
            && (error == Some(UnmanagedValid) <==> !foreign && unmanaged && valid)
            && (error == Some(UnmanagedInvalid) <==> !foreign && unmanaged && !valid)
  {
  }

  /** While the pair holds no call changes the key material, and a call that asks for the same again writes nothing. */
  lemma RepeatKeepsKeys(s: CertSecret, r: Request, now: Time, key: Key, rev: nat, f: Fault)
    requires ValidRequest(r) && Holds(s, r.kind, now)
    ensures var out := Renew(Some(s), Some(s), r, now, key, rev, f);
            out.stored.Some? && out.stored.value.data == s.data
    ensures s.labels.others == r.labels && (r.owner.Some? ==> s.controller == r.owner) ==>
              Renew(Some(s), Some(s), r, now, key, rev, f) == Outcome(Some(s), CertFromMap(s.data), None)
  {
  }

  predicate Renewable(stored: Option<CertSecret>, owner: Option<string>) {
    stored.Some? ==>
      && Managed(stored.value)
      && (owner.Some? && stored.value.controller.Some? ==> stored.value.controller == owner)
  }

  /** A call that reads the stored Secret and whose write gets through succeeds exactly when there is no Secret, or one
      labelled as managed that no other object controls. */
  lemma FaultFreeCallSucceeds(stored: Option<CertSecret>, r: Request, now: Time, key: Key, rev: nat)
    requires ValidRequest(r) && (stored.Some? ==> Readable(stored.value))
    ensures Renew(stored, stored, r, now, key, rev, Reliable).error.None? <==> Renewable(stored, r.owner)
  {
  }

  // ----- The root CA -----

  /** The root CA's renewal also succeeds on a valid Secret that is not managed. */
  function RootPair(out: Outcome): Option<KeyPair> {
    if out.error.None? || (out.error == Some(UnmanagedValid) && out.pair.Some?) then out.pair else None
  }

  /** Which unmanaged root CA is accepted: any pair that parses and is not due. Whether it is a CA is not looked at. */
  lemma UnmanagedRootIsAccepted(s: CertSecret, r: Request, now: Time, key: Key, rev: nat, f: Fault)
    requires ValidRequest(r) && Readable(s) && !Managed(s) && r.owner.None?
    ensures var pair := CertFromMap(s.data);
            RootPair(Renew(Some(s), Some(s), r, now, key, rev, f))
            == if pair.Some? && !NeedsRenewal(pair.value.cert, now) then pair else None
  {
  }

  /** The pair that a successful root renewal returns is a CA's exactly if the Secret is managed or the pair in it is. */
  lemma AcceptedRootIsCa(stored: Option<CertSecret>, commonName: string, labels: map<string, string>,
                         now: Time, key: Key, rev: nat, f: Fault)
    requires stored.Some? ==> Readable(stored.value)
    requires RootPair(Renew(stored, stored, Request(RootOrAuthCA(commonName), None, labels), now, key, rev, f)).Some?
    ensures var pair := RootPair(Renew(stored, stored, Request(RootOrAuthCA(commonName), None, labels), now, key, rev, f)).value;
            pair.cert.isCA
            <==> stored.None? || Managed(stored.value)
                 || CertFromMap(stored.value.data).value.cert.isCA
  {
  }

  /** The delay after which the root CA's reconciler runs again; `clock` is the time after the renewal. */
  function RootDelay(pair: KeyPair, clock: Time): int {
    NextRenewal(pair.cert) - clock + 30 * SECOND
  }

  /** When the root CA's reconciler wakes up the stored pair is due; a managed one is then replaced by one that is not,
      and an unmanaged one is reported. The delay schedules a run exactly while the clock is under 30 s past the renewal. */
  lemma WakeUpFindsRenewalDue(stored: Option<CertSecret>, commonName: string, labels: map<string, string>, now: Time,
                              clock: Time, key: Key, rev: nat, f: Fault, key': Key, rev': nat)
    requires stored.Some? ==> Readable(stored.value)
    requires RootPair(Renew(stored, stored, Request(RootOrAuthCA(commonName), None, labels), now, key, rev, f)).Some?
    ensures var r := Request(RootOrAuthCA(commonName), None, labels);
            var out := Renew(stored, stored, r, now, key, rev, f);
            var pair := RootPair(out).value;
            var wake := clock + RootDelay(pair, clock);
            && out.stored.Some? && Readable(out.stored.value) && CertFromMap(out.stored.value.data).Some?
            && NeedsRenewal(CertFromMap(out.stored.value.data).value.cert, wake)
            && (RootDelay(pair, clock) > 0 <==> clock < NextRenewal(pair.cert) + 30 * SECOND)
            && var next := Renew(out.stored, out.stored, r, wake, key', rev', Reliable);
               if Managed(out.stored.value)
               then next.error.None? && next.stored.value.data == Some(CertToMap(Make(r.kind, wake, key')))
               else RootPair(next).None? && next.stored == out.stored
  {
    var r := Request(RootOrAuthCA(commonName), None, labels);
    var out := Renew(stored, stored, r, now, key, rev, f);
    if out.error.None? {
      SuccessHolds(stored, r, now, key, rev, f);
    }
  }

  /** The root CA as the registry's reconciler reads it: none if the Secret is missing or does not parse. */
  function RootCACert(stored: Option<CertSecret>): Option<KeyPair>
    requires stored.Some? ==> Readable(stored.value)
  {
    if stored.None? then None else CertFromMap(stored.value.data)
  }
}
