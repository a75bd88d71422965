/** The certificate manager, the root CA's reconciler and the registry's certificate tasks as they run. */
module CertManager {
  import opened Wrappers
  import opened Cluster
  import opened Certs
  import opened Naming

  /** The stored Secret behind one key. */
  class Api {
    var stored: Option<CertSecret>
    var rev: nat

    constructor (stored: Option<CertSecret>, rev: nat)
      ensures this.stored == stored && this.rev == rev
    {
      this.stored, this.rev := stored, rev;
    }

    method Create(s: CertSecret, f: Fault) returns (ok: bool)
      modifies this
      ensures (stored, ok) == if f.DroppedRequest? || old(stored).Some? then (old(stored), false)
                              else (Some(s.(version := old(rev) + 1)), f.Reliable?)
    {
      if f.DroppedRequest? || stored.Some? {
        return false;
      }
      rev := rev + 1;
      stored := Some(s.(version := rev));
      return f.Reliable?;
    }

    method Update(s: CertSecret, f: Fault) returns (ok: bool)
      modifies this
      ensures (stored, ok) == if f.DroppedRequest? || old(stored).None? || old(stored).value.version != s.version then (old(stored), false)
                              else (Some(s.(version := old(rev) + 1)), f.Reliable?)
    {
      if f.DroppedRequest? || stored.None? || stored.value.version != s.version {
        return false;
      }
      rev := rev + 1;
      stored := Some(s.(version := rev));
      return f.Reliable?;
    }
  }

  /** The Secret in memory, which the closure rewrites field by field. */
  class SecretObject {
    const version: nat
    var labels: Labels
    var tls: bool
    var controller: Option<string>
    var data: Option<Data>

    constructor (s: CertSecret)
      ensures Value() == s
    {
      version, labels, tls, controller, data := s.version, s.labels, s.tls, s.controller, s.data;
    }

    function Value(): CertSecret
      reads this
    {
      CertSecret(version, labels, tls, controller, data)
    }

    method SetControllerReference(owner: string) returns (ok: bool)
      modifies this`controller
      ensures ok == (old(controller).None? || old(controller) == Some(owner))
      ensures controller == if ok then Some(owner) else old(controller)
    {
      if controller.Some? && controller.value != owner {
        return false;
      }
      controller := Some(owner);
      return true;
    }
  }

  /** Whether two lists of names are the same: same length, same names, same order. */
  method EqualNames(a: seq<string>, b: seq<string>) returns (equal: bool)
    ensures equal <==> a == b
  {
    if |a| != |b| {
      return false;
    }
    for i := 0 to |a|
      invariant forall k :: 0 <= k < i ==> a[k] == b[k]
    {
      if a[i] != b[i] {
        return false;
      }
    }
    return true;
  }

  method IsUnfit(k: Kind, c: Certificate) returns (unfit: bool)
    ensures unfit == Unfit(k, c)
  {
    match k
    case RootOrAuthCA(_) => unfit := !c.isCA;
    case Server(dnsNames, _) =>
      var equal := EqualNames(c.dnsNames, dnsNames);
      unfit := c.isCA || !equal;
  }

  class CertManager {
    const api: Api

    constructor (api: Api)
      ensures this.api == api
    {
      this.api := api;
    }

    /** Creates or updates the Secret; the closure runs on a copy of what was read. */
    method RenewCertSecret(read: Option<CertSecret>, r: Request, now: Time, key: Key, f: Fault)
      returns (pair: Option<KeyPair>, error: Option<Error>)
      requires ValidRequest(r) && (read.Some? ==> Readable(read.value))
      modifies api
      ensures Outcome(api.stored, pair, error) == Renew(old(api.stored), read, r, now, key, old(api.rev) + 1, f)
    {
      var secret := new SecretObject(if read.Some? then read.value else BLANK);
      pair, error := Modify(secret, read.Some?, r, now, key);
      if error.Some? {
        return;
      }
      var ok := true;
      if read.None? {
        ok := api.Create(secret.Value(), f);
      } else if secret.Value() != read.value {
        ok := api.Update(secret.Value(), f);
      }
      error := if ok then None else Some(WriteFailed);
    }

    method Modify(secret: SecretObject, found: bool, r: Request, now: Time, key: Key)
      returns (pair: Option<KeyPair>, error: Option<Error>)
      requires ValidRequest(r) && Readable(secret.Value()) && (!found ==> secret.Value() == BLANK)
      modifies secret
      ensures match Mutate(if found then Some(old(secret.Value())) else None, r, now, key)
              case Refused(e, p) => error == Some(e) && pair == p
              case Mutated(s, made) => error.None? && pair == Some(made) && secret.Value() == s
    {
      error := None;
      pair := CertFromMap(secret.data);
      if r.owner.Some? {
        var ok := secret.SetControllerReference(r.owner.value);
        if !ok {
          return pair, Some(AlreadyOwned);
        }
      }
      if found && secret.labels.managedBy != OPERATOR_NAME {
        if pair.None? || NeedsRenewal(pair.value.cert, now) {
          return pair, Some(UnmanagedInvalid);
        } else {
          return pair, Some(UnmanagedValid);
        }
      }
      secret.labels := Labels(OPERATOR_NAME, r.labels);
      secret.tls := true;
      var renew := pair.None? || NeedsRenewal(pair.value.cert, now);
      if !renew {
        renew := IsUnfit(r.kind, pair.value.cert);
      }
      if renew {
        pair := Some(Make(r.kind, now, key));
        secret.data := Some(CertToMap(pair.value));
      }
    }

    /** Renews the root CA; a valid Secret that is not managed is accepted as it is. */
    method RenewRootCACertSecret(read: Option<CertSecret>, commonName: string, labels: map<string, string>,
                                 now: Time, key: Key, f: Fault)
      returns (ca: Option<KeyPair>)
      requires read.Some? ==> Readable(read.value)
      modifies api
      ensures var out := Renew(old(api.stored), read, Request(RootOrAuthCA(commonName), None, labels), now, key, old(api.rev) + 1, f);
              api.stored == out.stored && ca == RootPair(out)
    {
      var error;
      ca, error := RenewCertSecret(read, Request(RootOrAuthCA(commonName), None, labels), now, key, f);
      if error.Some? && (error.value != UnmanagedValid || ca.None?) {
        return None;
      }
    }

    /** A run of the root CA's reconciler: the delay until the next one, or none on an error. */
    method ReconcileRoot(read: Option<CertSecret>, commonName: string, labels: map<string, string>,
                         now: Time, clock: Time, key: Key, f: Fault)
      returns (requeueAfter: Option<int>)
      requires read.Some? ==> Readable(read.value)
      modifies api
      ensures var out := Renew(old(api.stored), read, Request(RootOrAuthCA(commonName), None, labels), now, key, old(api.rev) + 1, f);
              && api.stored == out.stored
              && requeueAfter == if RootPair(out).Some? then Some(RootDelay(RootPair(out).value, clock)) else None
    {
      var ca := RenewRootCACertSecret(read, commonName, labels, now, key, f);
      if ca.None? {
        return None;
      }
      return Some(NextRenewal(ca.value.cert) - clock + 30 * SECOND);
    }

    /** The registry's server certificate, issued from the root CA that was read; false on an error. A success leaves a
        certificate for exactly the registry's names, which are written out here; the first is its common name. */
    method ReconcileTLSCert(root: Option<CertSecret>, read: Option<CertSecret>, registry: NamespacedName, zone: string,
                            owner: string, labels: map<string, string>, now: Time, key: Key, f: Fault)
      returns (ok: bool)
      requires (root.Some? ==> Readable(root.value)) && (read.Some? ==> Readable(read.value))
      modifies api
      ensures RootCACert(root).None? ==> !ok && api.stored == old(api.stored)
      ensures RootCACert(root).Some? ==>
                var names := DnsNames(registry.name, registry.ns, zone);
                var out := Renew(old(api.stored), read, Request(Server(names, RootCACert(root).value), Some(owner), labels),
                                 now, key, old(api.rev) + 1, f);
                api.stored == out.stored && ok == out.error.None?
      ensures ok && read == old(api.stored) ==>
                && api.stored.Some? && api.stored.value.data.Some?
                && At(api.stored.value.data.value, TlsCrt).CertBlock?
                && var c, host := At(api.stored.value.data.value, TlsCrt).cert, registry.name + "." + registry.ns + ".";
                   && !c.isCA && now <= NextRenewal(c)
                   && c.dnsNames == (if zone == "svc.cluster.local" then [] else [host + zone])
                                    + [host + "svc.cluster.local", host + "svc"]
                   && (api.stored.value.data != (if read.Some? then read.value.data else None) ==>
                         c.commonName == host + zone)
    {
      var ca := if root.None? then None else CertFromMap(root.value.data);
      if ca.None? {
        return false;
      }
      var dnsNames := DnsNames(registry.name, registry.ns, zone);
      DnsNamesOfRegistry(registry.name, registry.ns, zone);
      var error;
      var pair;
      pair, error := RenewCertSecret(read, Request(Server(dnsNames, ca.value), Some(owner), labels), now, key, f);
      ok := error.None?;
      if ok && read == old(api.stored) {
        ServerSecret(read, dnsNames, ca.value, owner, labels, now, key, old(api.rev) + 1, f);
        ServerAsMade(dnsNames, ca.value, now, key);
      }
    }

    /** The CA for the registry's access tokens. */
    method ReconcileTokenCert(read: Option<CertSecret>, registry: NamespacedName, owner: string, labels: map<string, string>,
                              now: Time, key: Key, f: Fault)
      returns (ok: bool)
      requires read.Some? ==> Readable(read.value)
      modifies api
      ensures var name := registry.name + "." + registry.ns + ".svc";
              var out := Renew(old(api.stored), read, Request(RootOrAuthCA(name), Some(owner), labels), now, key,
                               old(api.rev) + 1, f);
              api.stored == out.stored && ok == out.error.None?
      ensures ok && read == old(api.stored) ==>
                && api.stored.Some? && api.stored.value.controller == Some(owner) && api.stored.value.data.Some?
                && Certifies(api.stored.value.data.value, now)
                && (api.stored.value.data != (if read.Some? then read.value.data else None) ==>
                      At(api.stored.value.data.value, TlsCrt).cert.commonName == registry.name + "." + registry.ns + ".svc")
    {
      var commonName := registry.name + "." + registry.ns + ".svc";
      var _, error := RenewCertSecret(read, Request(RootOrAuthCA(commonName), Some(owner), labels), now, key, f);
      ok := error.None?;
      if ok && read == old(api.stored) {
        CaSecret(read, commonName, Some(owner), labels, now, key, old(api.rev) + 1, f);
        CaAsMade(commonName, now, key);
      }
    }
  }

  // ----- DNS names of a registry -----

  const CLUSTER_ZONE := "svc.cluster.local"

  function DnsNames(name: string, ns: string, zone: string): seq<string> {
    var internal, external := RegistryHostname(name, ns, CLUSTER_ZONE), RegistryHostname(name, ns, zone);
    (if external != internal then [external] else []) + [internal, RegistryHostname(name, ns, "svc")]
  }

  lemma HostInZone(name: string, ns: string, y: string, z: string)
    ensures RegistryHostname(name, ns, y) == RegistryHostname(name, ns, z) <==> y == z
  {
    var prefix := name + "." + ns + ".";
    assert RegistryHostname(name, ns, y)[|prefix|..] == y && RegistryHostname(name, ns, z)[|prefix|..] == z;
  }

  /** The names are exactly the registry's host in the configured zone, its cluster-internal and its short one, in this
      order; the first is always the external host; and none comes twice unless the zone is `svc` itself. */
  lemma DnsNamesOfRegistry(name: string, ns: string, zone: string)
    ensures var names, host := DnsNames(name, ns, zone), name + "." + ns + ".";
            && names == (if zone == "svc.cluster.local" then [] else [host + zone]) + [host + "svc.cluster.local", host + "svc"]
            && names[0] == host + zone
            && (set n | n in names) == {host + zone, host + "svc.cluster.local", host + "svc"}
            && ((forall i, j :: 0 <= i < j < |names| ==> names[i] != names[j]) <==> zone != "svc")
  {
    HostInZone(name, ns, zone, CLUSTER_ZONE);
    HostInZone(name, ns, zone, "svc");
    HostInZone(name, ns, CLUSTER_ZONE, "svc");
    HostSpelledOut(name, ns, zone);
    HostSpelledOut(name, ns, CLUSTER_ZONE);
    HostSpelledOut(name, ns, "svc");
    var names := DnsNames(name, ns, zone);
    if zone == "svc" {
      assert names[0] == names[2];
    }
  }

  lemma HostSpelledOut(name: string, ns: string, zone: string)
    ensures RegistryHostname(name, ns, zone) == name + "." + ns + "." + zone
  {
  }
}
