/** The names and label values by which the operator finds its objects again. */
module Naming {
  import opened Wrappers
  import opened Text

  datatype NamespacedName = NamespacedName(ns: string, name: string)

  /** Value of the label or annotation that points from an object back to a resource. */
  function ToMapValue(n: NamespacedName): string {
    n.name + "." + n.ns
  }

  /** The resource a label or annotation value asks to reconcile, if any; an absent key reads as "". */
  function MapToRequest(value: string): Option<NamespacedName> {
    if value == "" then None
    else
      match SplitFirst(value, '.')
      case Whole(_) => None
      case Parts(head, tail) => if head == "" || tail == "" then None else Some(NamespacedName(tail, head))
  }

  /** Exactly the values with text on both sides of their first dot are mapped, and `ToMapValue` gives them back. */
  lemma MapAccepts(value: string)
    ensures MapToRequest(value).Some? <==>
              exists head, tail :: head != "" && tail != "" && '.' !in head && value == head + "." + tail
    ensures MapToRequest(value).Some? ==> ToMapValue(MapToRequest(value).value) == value
  {
    if MapToRequest(value).Some? {
      var r := SplitFirst(value, '.');
      assert value == r.head + "." + r.tail;
    }
    forall head, tail | head != "" && tail != "" && '.' !in head && value == head + "." + tail
      ensures MapToRequest(value).Some?
    {
      SplitJoin(head, '.', tail);
    }
  }

  /** A label leads back to the resource it was written for exactly when namespace and name are not
      empty and the name has no dot: the code does not meet the round trip for names with a dot. */
  lemma MapInvertsToMapValue(n: NamespacedName)
    ensures MapToRequest(ToMapValue(n)) == Some(n) <==> n.name != "" && n.ns != "" && '.' !in n.name
  {
    var value := ToMapValue(n);
    if '.' !in n.name {
      SplitJoin(n.name, '.', n.ns);
    } else {
      var r := MapToRequest(value);
      assert r.Some? ==> '.' !in r.value.name;
    }
  }

  /** A resource named `web.app` is never found from its accounts' label. */
  lemma DottedNameIsMisrouted()
    ensures MapToRequest(ToMapValue(NamespacedName("team", "web.app"))) == Some(NamespacedName("app.team", "web"))
  {
    SplitJoin("web", '.', "app.team");
    assert ToMapValue(NamespacedName("team", "web.app")) == "web" + "." + "app.team";
  }

  /** Accounts are labelled with `ToMapValue`, but selected for deletion by the usual text of a namespaced name. */
  function SelectorValue(n: NamespacedName): string {
    n.ns + "/" + n.name
  }

  /** No account of any resource ever bears the value that another one, or the same, selects: names have no slash. */
  lemma SelectorMissesLabel(n: NamespacedName, m: NamespacedName)
    requires '/' !in m.ns && '/' !in m.name
    ensures SelectorValue(n) != ToMapValue(m)
  {
    var s := SelectorValue(n);
    assert s[|n.ns|] == '/' && '/' in s;
  }

  datatype AccessMode = Pull | Push

  function ModeText(m: AccessMode): string {
    match m case Pull => "pull" case Push => "push"
  }

  /** Identity of an ImagePullSecret or ImagePushSecret. */
  datatype CrId = CrId(mode: AccessMode, ns: string, name: string)

  function AccountName(cr: CrId, rotation: int): string {
    ModeText(cr.mode) + "." + cr.ns + "." + cr.name + "." + Decimal(rotation)
  }

  function SecretName(cr: CrId): string {
    "image" + ModeText(cr.mode) + "secret-" + cr.name
  }

  /** The names as they are spelled. */
  lemma NamesSpelledOut(ns: string, name: string, rotation: int)
    ensures AccountName(CrId(Pull, ns, name), rotation) == "pull." + ns + "." + name + "." + Decimal(rotation)
    ensures AccountName(CrId(Push, ns, name), rotation) == "push." + ns + "." + name + "." + Decimal(rotation)
    ensures SecretName(CrId(Pull, ns, name)) == "imagepullsecret-" + name
    ensures SecretName(CrId(Push, ns, name)) == "imagepushsecret-" + name
    ensures ToMapValue(NamespacedName(ns, name)) == name + "." + ns
  {
    assert "image" + "pull" + "secret-" == "imagepullsecret-" && "image" + "push" + "secret-" == "imagepushsecret-";
    assert "pull" + "." == "pull." && "push" + "." == "push.";
  }

  /** Positive, negative and multi-digit numbers. */
  lemma DecimalSpelledOut()
    ensures Decimal(0) == "0" && Decimal(7) == "7" && Decimal(10) == "10" && Decimal(1234) == "1234" && Decimal(-5) == "-5"
  {
  }

  /** What follows mode and namespace in an account name. */
  function NameAndRotation(cr: CrId, rotation: int): string {
    cr.name + ['.'] + Decimal(rotation)
  }

  /** The first two dots of an account name end the mode and the dot-free namespace. */
  lemma AccountNameSplits(cr: CrId, rotation: int)
    requires '.' !in cr.ns
    ensures SplitFirst(AccountName(cr, rotation), '.')
         == Parts(ModeText(cr.mode), cr.ns + ['.'] + NameAndRotation(cr, rotation))
    ensures SplitFirst(cr.ns + ['.'] + NameAndRotation(cr, rotation), '.')
         == Parts(cr.ns, NameAndRotation(cr, rotation))
  {
    var tail := cr.ns + ['.'] + NameAndRotation(cr, rotation);
    assert AccountName(cr, rotation) == ModeText(cr.mode) + ['.'] + tail;
    SplitJoin(ModeText(cr.mode), '.', tail);
    SplitJoin(cr.ns, '.', NameAndRotation(cr, rotation));
  }

  lemma ModeTextInjective(a: AccessMode, b: AccessMode)
    requires ModeText(a) == ModeText(b)
    ensures a == b
  {
    assert ModeText(a)[2] == ModeText(b)[2];
  }

  /** Accounts of distinct resources, or of distinct rotations, never share a name, although resource names may hold dots. */
  lemma AccountNameInjective(a: CrId, j: int, b: CrId, k: int)
    requires '.' !in a.ns && '.' !in b.ns
    requires AccountName(a, j) == AccountName(b, k)
    ensures a == b && j == k
  {
    AccountNameSplits(a, j);
    AccountNameSplits(b, k);
    ModeTextInjective(a.mode, b.mode);
    assert NameAndRotation(a, j) == NameAndRotation(b, k);
    JoinLastInjective(a.name, Decimal(j), b.name, Decimal(k), '.');
    DecimalInjective(j, k);
  }

  /** One resource's account names are told apart by the rotation alone, whatever its namespace holds. */
  lemma RotationsDistinct(cr: CrId)
    ensures forall j, k :: AccountName(cr, j) == AccountName(cr, k) ==> j == k
  {
    forall j, k | AccountName(cr, j) == AccountName(cr, k)
      ensures j == k
    {
      var prefix := ModeText(cr.mode) + "." + cr.ns + "." + cr.name + ".";
      assert AccountName(cr, j)[|prefix|..] == Decimal(j);
      assert AccountName(cr, k)[|prefix|..] == Decimal(k);
      DecimalInjective(j, k);
    }
  }

  /** Two resources of one namespace never manage the same Secret. */
  lemma SecretNameInjective(a: CrId, b: CrId)
    requires a.ns == b.ns && SecretName(a) == SecretName(b)
    ensures a == b
  {
    var sa, sb := SecretName(a), SecretName(b);
    assert sa[7] == ModeText(a.mode)[2] && sb[7] == ModeText(b.mode)[2];
    assert sa[16..] == a.name && sb[16..] == b.name;
  }

  function RegistryHostname(name: string, ns: string, zone: string): string {
    name + "." + ns + "." + zone
  }

  /** Within one DNS zone a hostname tells the registry and its dot-free namespace, although names may hold dots. */
  lemma HostnameDeterminesRegistry(a: NamespacedName, b: NamespacedName, zone: string)
    requires '.' !in a.ns && '.' !in b.ns
    requires RegistryHostname(a.name, a.ns, zone) == RegistryHostname(b.name, b.ns, zone)
    ensures a == b
  {
    var ha, hb := a.name + ['.'] + a.ns, b.name + ['.'] + b.ns;
    var tail := "." + zone;
    assert RegistryHostname(a.name, a.ns, zone) == ha + tail;
    assert RegistryHostname(b.name, b.ns, zone) == hb + tail;
    assert (ha + tail)[..|ha|] == ha && (hb + tail)[..|hb|] == hb;
    JoinLastInjective(a.name, a.ns, b.name, b.ns, '.');
  }
}
