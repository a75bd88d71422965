/** The merge of input Secrets into one configuration. The reading of an auth string is a parameter `dec`;
    the operator passes `ToMakisuBasicAuth`. */
module SecretMerge {
  import opened Wrappers
  import opened Base64
  import opened RegistriesConf

  type Decoder = string -> Option<BasicAuth>

  datatype SecretType = DockerConfigJson | Opaque | OtherType(name: string)

  /** A Secret's value: JSON and YAML are kept as the structures they encode. */
  datatype Blob =
    | DockerJson(auths: Option<Auths>)
    | MakisuYaml(makisu: Makisu)
    | Raw(bytes: Bytes)

  /** The data keys the merge knows; `Key` stands for any other name. */
  datatype DataKey = DockerConfigJsonKey | ConfigJsonKey | MakisuYamlKey | Key(name: string)

  type SecretData = map<DataKey, Blob>

  datatype Secret = Secret(name: string, kind: SecretType, data: Option<SecretData>)

  datatype MergeError =
    | NoData(secret: string)
    | MissingKey(secret: string, key: DataKey)
    | UnsupportedType(secret: string)
    | InvalidJson(secret: string)
    | UndecodableAuth(secret: string)

  const ANY_IMAGE := ".*"

  /** Docker configuration of an input Secret; an absent `auths` object lists no registry. */
  function DockerConfigFromSecret(s: Secret): Result<Auths, MergeError> {
    if s.data.None? then Err(NoData(s.name))
    else
      match s.kind
      case OtherType(_) => Err(UnsupportedType(s.name))
      case DockerConfigJson => ParseKey(s, DockerConfigJsonKey)
      case Opaque => ParseKey(s, ConfigJsonKey)
  }

  function ParseKey(s: Secret, key: DataKey): Result<Auths, MergeError>
    requires s.data.Some?
  {
    if key !in s.data.value || s.data.value[key] == Raw([]) then Err(MissingKey(s.name, key))
    else
      match s.data.value[key]
      case DockerJson(auths) => Ok(if auths.None? then map[] else auths.value)
      case _ => Err(InvalidJson(s.name))
  }

  predicate Decodable(auths: Auths, dec: Decoder) {
    forall k :: k in auths ==> dec(auths[k]).Some?
  }

  /** The Secret yields a configuration in which every auth can be decoded. */
  predicate Usable(s: Secret, dec: Decoder) {
    match DockerConfigFromSecret(s)
    case Err(_) => false
    case Ok(auths) => Decodable(auths, dec)
  }

  /** The content lists these registries; without an `auths` object it lists none. */
  predicate Lists(b: Blob, auths: Auths) {
    b == DockerJson(Some(auths)) || (b == DockerJson(None) && auths == map[])
  }

  /** What a Secret configures, by its type and data: a dockerconfigjson Secret under `.dockerconfigjson`, an Opaque one
      under `config.json`. */
  predicate Configures(s: Secret, auths: Auths) {
    && s.data.Some?
    && match s.kind
       case DockerConfigJson => DockerConfigJsonKey in s.data.value && Lists(s.data.value[DockerConfigJsonKey], auths)
       case Opaque => ConfigJsonKey in s.data.value && Lists(s.data.value[ConfigJsonKey], auths)
       case OtherType(_) => false
  }

  /** The key is not there, or there is nothing under it. */
  predicate Lacks(s: Secret, key: DataKey) {
    s.data.Some? && (key !in s.data.value || s.data.value[key] == Raw([]))
  }

  predicate HoldsOther(s: Secret, key: DataKey) {
    s.data.Some? && key in s.data.value && s.data.value[key] != Raw([]) && !s.data.value[key].DockerJson?
  }

  /** What is read of an input Secret, and each way in which it is refused. */
  lemma ConfigIsRead(s: Secret)
    ensures forall auths :: DockerConfigFromSecret(s) == Ok(auths) <==> Configures(s, auths)
    ensures DockerConfigFromSecret(s) == Err(NoData(s.name)) <==> s.data.None?
    ensures DockerConfigFromSecret(s) == Err(UnsupportedType(s.name)) <==> s.data.Some? && s.kind.OtherType?
    ensures DockerConfigFromSecret(s) == Err(MissingKey(s.name, DockerConfigJsonKey))
            <==> s.kind == DockerConfigJson && Lacks(s, DockerConfigJsonKey)
    ensures DockerConfigFromSecret(s) == Err(MissingKey(s.name, ConfigJsonKey)) <==> s.kind == Opaque && Lacks(s, ConfigJsonKey)
    ensures DockerConfigFromSecret(s) == Err(InvalidJson(s.name))
            <==> (s.kind == DockerConfigJson && HoldsOther(s, DockerConfigJsonKey))
                 || (s.kind == Opaque && HoldsOther(s, ConfigJsonKey))
  {
  }

  /** The Secret can be merged, by its type and data. */
  ghost predicate Mergeable(s: Secret, dec: Decoder) {
    exists auths :: Configures(s, auths) && Decodable(auths, dec)
  }

  lemma UsableIsMergeable(s: Secret, dec: Decoder)
    ensures Usable(s, dec) <==> Mergeable(s, dec)
  {
    ConfigIsRead(s);
    if Usable(s, dec) {
      assert Configures(s, DockerConfigFromSecret(s).value);
    }
  }

  /** Union of the configurations of usable Secrets, the later one winning. */
  function UnionAuths(secrets: seq<Secret>, dec: Decoder): (u: Auths)
    requires forall s :: s in secrets ==> Usable(s, dec)
    ensures Decodable(u, dec)
  {
    if secrets == [] then map[]
    else
      var last := secrets[|secrets| - 1];
      assert Usable(last, dec);
      assert forall s :: s in secrets[..|secrets| - 1] ==> s in secrets;
      UnionAuths(secrets[..|secrets| - 1], dec) + DockerConfigFromSecret(last).value
  }

  function ToMakisu(auths: Auths, dec: Decoder): Makisu
    requires Decodable(auths, dec)
  {
    map k | k in auths :: map[ANY_IMAGE := dec(auths[k]).value]
  }

  function FirstData(secrets: seq<Secret>): SecretData {
    if secrets == [] || secrets[0].data.None? then map[] else secrets[0].data.value
  }

  /** What a successful merge puts into the output Secret. */
  function MergedData(secrets: seq<Secret>, dec: Decoder): SecretData
    requires forall s :: s in secrets ==> Usable(s, dec)
  {
    var auths := UnionAuths(secrets, dec);
    FirstData(secrets)[DockerConfigJsonKey := DockerJson(Some(auths))][MakisuYamlKey := MakisuYaml(ToMakisu(auths, dec))]
  }

  /** The makisu configuration follows one more entry of the docker configuration. */
  lemma ToMakisuExtends(auths: Auths, k: string, v: string, auth: BasicAuth, makisu: Makisu, dec: Decoder)
    requires Decodable(auths, dec) && dec(v) == Some(auth)
    requires makisu.Keys == auths.Keys + {k}
    requires forall r :: r in auths && r != k ==> makisu[r] == ToMakisu(auths, dec)[r]
    requires makisu[k] == (if k in auths then ToMakisu(auths, dec)[k] else map[])[ANY_IMAGE := auth]
    ensures makisu == ToMakisu(auths[k := v], dec)
  {
    assert makisu[k] == map[ANY_IMAGE := auth];
    assert makisu.Keys == ToMakisu(auths[k := v], dec).Keys;
  }

  lemma UnionUpdate(m: Auths, n: Auths, k: string, v: string)
    ensures (m + n)[k := v] == m + n[k := v]
  {
  }

  /** Merges one Secret's entries, taken in any order. */
  method MergeAuths(secret: Secret, input: Auths, docker: DockerConfig, makisu: MakisuRegistries, dec: Decoder)
    returns (err: Option<MergeError>)
    requires docker.auths.Some? && docker as object != makisu
    requires Decodable(docker.auths.value, dec) && makisu.registries == ToMakisu(docker.auths.value, dec)
    modifies docker, makisu
    ensures err.None? <==> Decodable(input, dec)
    ensures err.Some? ==> err.value == UndecodableAuth(secret.name)
    ensures err.None? ==> docker.auths == Some(old(docker.auths.value) + input)
    ensures err.None? ==> Decodable(docker.auths.value, dec) && makisu.registries == ToMakisu(docker.auths.value, dec)
  {
    var todo := input.Keys;
    ghost var before, done: Auths := docker.auths.value, map[];
    assert before + done == before;
    while todo != {}
      invariant todo <= input.Keys && done.Keys == input.Keys - todo
      invariant forall k :: k in done ==> done[k] == input[k]
      invariant Decodable(done, dec)
      invariant docker.auths == Some(before + done)
      invariant Decodable(before + done, dec)
      invariant makisu.registries == ToMakisu(before + done, dec)
      decreases todo
    {
      var k :| k in todo;
      docker.SetAuth(k, input[k]);
      var auth := dec(input[k]);
      if auth.None? {
        return Some(UndecodableAuth(secret.name));
      }
      makisu.AddRegistry(k, ANY_IMAGE, auth.value);
      ToMakisuExtends(before + done, k, input[k], auth.value, makisu.registries, dec);
      UnionUpdate(before, done, k, input[k]);
      done := done[k := input[k]];
      todo := todo - {k};
    }
    assert done == input;
    return None;
  }

  /** The error is that of the first Secret that cannot be merged. */
  predicate IsFirstError(secrets: seq<Secret>, dec: Decoder, i: nat, e: MergeError)
    requires i < |secrets|
  {
    && (forall s :: s in secrets[..i] ==> Usable(s, dec)) && !Usable(secrets[i], dec)
    && (DockerConfigFromSecret(secrets[i]) == Err(e)
        || (DockerConfigFromSecret(secrets[i]).Ok? && e == UndecodableAuth(secrets[i].name)))
  }

  /** Merges the input Secrets; fails as soon as one of them is unusable, even in an entry that a later one overrides. */
  method MergeSecretData(secrets: seq<Secret>, dec: Decoder) returns (r: Result<SecretData, MergeError>)
    ensures r.Ok? <==> forall s :: s in secrets ==> Usable(s, dec)
    ensures r.Ok? <==> forall s :: s in secrets ==> Mergeable(s, dec)
    ensures r.Ok? ==> r.value == MergedData(secrets, dec)
    ensures r.Err? ==> exists i :: 0 <= i < |secrets| && IsFirstError(secrets, dec, i, r.error)
  {
    forall s | s in secrets
      ensures Usable(s, dec) <==> Mergeable(s, dec)
    {
      UsableIsMergeable(s, dec);
    }
    var docker := new DockerConfig(Some(map[]));
    var makisu := new MakisuRegistries();
    for i := 0 to |secrets|
      invariant fresh(docker) && fresh(makisu)
      invariant forall s :: s in secrets[..i] ==> Usable(s, dec)
      invariant docker.auths == Some(UnionAuths(secrets[..i], dec))
      invariant makisu.registries == ToMakisu(docker.auths.value, dec)
    {
      var input := DockerConfigFromSecret(secrets[i]);
      assert secrets[..i + 1] == secrets[..i] + [secrets[i]];
      if input.Err? {
        assert !Usable(secrets[i], dec) && IsFirstError(secrets, dec, i, input.error);
        return Err(input.error);
      }
      var err := MergeAuths(secrets[i], input.value, docker, makisu, dec);
      if err.Some? {
        assert !Usable(secrets[i], dec) && IsFirstError(secrets, dec, i, err.value);
        return Err(err.value);
      }
      assert secrets[..i + 1][..i] == secrets[..i];
    }
    assert secrets[..|secrets|] == secrets;
    var data: SecretData := map[];
    if |secrets| > 0 && secrets[0].data.Some? {
      data := secrets[0].data.value;
    }
    data := data[DockerConfigJsonKey := DockerJson(docker.auths)];
    data := data[MakisuYamlKey := MakisuYaml(makisu.registries)];
    return Ok(data);
  }

  /** The Secret has this auth for the registry. */
  ghost predicate Entry(s: Secret, k: string, v: string) {
    exists auths :: Configures(s, auths) && k in auths && auths[k] == v
  }

  ghost predicate HasRegistry(s: Secret, k: string) {
    exists auths :: Configures(s, auths) && k in auths
  }

  lemma EntryIsRead(s: Secret, k: string, dec: Decoder)
    requires Usable(s, dec)
    ensures HasRegistry(s, k) <==> k in DockerConfigFromSecret(s).value
    ensures forall v :: Entry(s, k, v) <==> k in DockerConfigFromSecret(s).value && DockerConfigFromSecret(s).value[k] == v
  {
    var auths := DockerConfigFromSecret(s).value;
    ConfigIsRead(s);
    assert Configures(s, auths) && forall other :: Configures(s, other) ==> other == auths;
  }

  /** The union lists exactly the registries of the inputs, each as the last Secret has it that lists the registry. */
  lemma {:induction false} LastSecretWins(secrets: seq<Secret>, k: string, dec: Decoder)
    requires forall s :: s in secrets ==> Usable(s, dec)
    ensures k in UnionAuths(secrets, dec) <==> exists i :: 0 <= i < |secrets| && HasRegistry(secrets[i], k)
    ensures forall i, v :: 0 <= i < |secrets| && Entry(secrets[i], k, v)
              && (forall j :: i < j < |secrets| ==> !HasRegistry(secrets[j], k))
              ==> k in UnionAuths(secrets, dec) && UnionAuths(secrets, dec)[k] == v
  {
    if secrets != [] {
      var n := |secrets| - 1;
      var init := secrets[..n];
      assert forall s :: s in init ==> s in secrets;
      LastSecretWins(init, k, dec);
      assert Usable(secrets[n], dec);
      EntryIsRead(secrets[n], k, dec);
      assert UnionAuths(secrets, dec) == UnionAuths(init, dec) + DockerConfigFromSecret(secrets[n]).value;
      assert forall i :: 0 <= i < n ==> init[i] == secrets[i];
    }
  }

  /** The merged data: docker config and makisu config list the same registries, each makisu entry is decoded from the
      auth that docker config has, and every other key is the first Secret's. */
  lemma MergedDataContents(secrets: seq<Secret>, dec: Decoder)
    requires forall s :: s in secrets ==> Usable(s, dec)
    ensures var d := MergedData(secrets, dec);
            var first: SecretData := if secrets != [] && secrets[0].data.Some? then secrets[0].data.value else map[];
            && d.Keys == first.Keys + {DockerConfigJsonKey, MakisuYamlKey}
            && (forall k :: k in d && k != DockerConfigJsonKey && k != MakisuYamlKey ==> d[k] == first[k])
            && d[DockerConfigJsonKey].DockerJson? && d[DockerConfigJsonKey].auths.Some? && d[MakisuYamlKey].MakisuYaml?
            && var auths, makisu := d[DockerConfigJsonKey].auths.value, d[MakisuYamlKey].makisu;
               && auths == UnionAuths(secrets, dec) && makisu.Keys == auths.Keys
               && forall k :: k in auths ==> dec(auths[k]).Some? && makisu[k] == map[".*" := dec(auths[k]).value]
  {
  }

  /** End to end: the credentials that the last Secret listing a registry wrote with `AddAuth` are the ones makisu reads. */
  lemma WinningCredentials(secrets: seq<Secret>, i: nat, k: string, user: Bytes, passwd: Bytes)
    requires forall s :: s in secrets ==> Usable(s, ToMakisuBasicAuth)
    requires i < |secrets| && Entry(secrets[i], k, AuthString(user, passwd))
    requires forall j :: i < j < |secrets| ==> !HasRegistry(secrets[j], k)
    requires COLON !in user
    ensures var d := MergedData(secrets, ToMakisuBasicAuth);
            k in d[MakisuYamlKey].makisu && d[MakisuYamlKey].makisu[k] == map[".*" := BasicAuth(user, passwd)]
  {
    LastSecretWins(secrets, k, ToMakisuBasicAuth);
    MergedDataContents(secrets, ToMakisuBasicAuth);
    CredentialRoundTrip(user, passwd);
  }
}
