/** The names the operator really uses satisfy what the rotation protocol asks of them. */
module OperatorConfig {
  import opened Wrappers
  import opened Cluster
  import opened Accounts
  import opened Naming
  import opened ImageSecret
  import opened Continuity
  import Text

  function ConfigOf(cr: CrId, zone: string, ttl: Duration): Config {
    Config(k => AccountName(cr, k), (r: Registry) => RegistryHostname(r.name, r.ns, zone), ttl,
           map["namespace" := [cr.ns], "name" := [cr.name], "accessMode" := [ModeText(cr.mode)]],
           ToMapValue(NamespacedName(cr.ns, cr.name)), "kubernetes.io/dockerconfigjson")
  }

  /** Account names tell the rotations of one resource apart, hostnames tell registry namespaces apart. */
  lemma ConfigIsValid(cr: CrId, zone: string, ttl: Duration)
    requires ttl >= 1
    ensures ValidConfig(ConfigOf(cr, zone, ttl))
  {
    var cfg := ConfigOf(cr, zone, ttl);
    RotationsDistinct(cr);
    forall r, q | ValidRegistry(r) && ValidRegistry(q) && cfg.hostOf(r) == cfg.hostOf(q)
      ensures r.ns == q.ns
    {
      HostnameDeterminesRegistry(NamespacedName(r.ns, r.name), NamespacedName(q.ns, q.name), zone);
    }
  }

  /** Two resources that share a registry namespace never use one account name: what one of them creates is for the
      other an account under a foreign name. */
  lemma ResourcesNeverCollide(a: CrId, b: CrId, zone: string, ttl: Duration, j: int)
    requires '.' !in a.ns && '.' !in b.ns && a != b
    ensures forall k :: ConfigOf(a, zone, ttl).nameOf(j) != ConfigOf(b, zone, ttl).nameOf(k)
  {
    forall k
      ensures AccountName(a, j) != AccountName(b, k)
    {
      if AccountName(a, j) == AccountName(b, k) {
        AccountNameInjective(a, j, b, k);
      }
    }
  }

  /** What the operator configures, spelled out: labels, back-pointing label and Secret type. */
  lemma ConfigSpelledOut(cr: CrId, zone: string, ttl: Duration, reg: Registry)
    ensures var cfg := ConfigOf(cr, zone, ttl);
            && cfg.ttl == ttl && cfg.owner == cr.name + "." + cr.ns && cfg.secretType == "kubernetes.io/dockerconfigjson"
            && cfg.labels == map["namespace" := [cr.ns], "name" := [cr.name],
                                 "accessMode" := [if cr.mode.Pull? then "pull" else "push"]]
            && cfg.hostOf(reg) == reg.name + "." + reg.ns + "." + zone
  {
  }

  /** End to end, for the resource's real configuration and a clean start: whenever its Secret bears an annotation, the name
      in it is the account's, and a login with it is granted exactly namespace, name and access mode of the resource, the
      origin, and the account's name. */
  lemma SecretGrantsItsResource(cr: CrId, zone: string, ttl: Duration, w: World, tr: seq<Timed>, es: seq<Event>, i: nat)
    requires w.cfg == ConfigOf(cr, zone, ttl) && Roomy(w)
    requires Continuity.IsHistory(w, tr, es) && Clean(w, tr[0]) && i < |tr| && Marked(tr[i].s.db)
    ensures var data := tr[i].s.db.secret.value.data;
            var mode := if cr.mode.Pull? then "pull" else "push";
            var account := mode + "." + cr.ns + "." + cr.name + "." + Text.Decimal(Mark(tr[i].s.db));
            && data.username == account
            && LabelsGranted(w, tr[i], account, data.password)
               == Some(map["namespace" := [cr.ns], "name" := [cr.name], "accessMode" := [mode]][
                         "origin" := ["cr"]]["account" := [account]])
  {
    SecretAlwaysGrants(w, tr, es, i);
    NamesSpelledOut(cr.ns, cr.name, Mark(tr[i].s.db));
    ConfigSpelledOut(cr, zone, ttl, w.reg);
    AccountSpelledOut(cr, Mark(tr[i].s.db));
  }

  lemma AccountSpelledOut(cr: CrId, k: int)
    ensures AccountName(cr, k)
         == (if cr.mode.Pull? then "pull" else "push") + "." + cr.ns + "." + cr.name + "." + Text.Decimal(k)
  {
  }
}
